/**
 * The top-level request middleware (middleware.ts): a `signout` query
 * parameter short-circuits into a redirect to sign-in that deletes every
 * auth cookie name and its chunks; every other request goes through
 * `updateSession` and is tagged with whether the edge database is bound.
 */
module Middleware {
  import opened Common
  import opened Http
  import opened SessionMiddleware

  /** The auth cookie names cleared on sign-out. */
  const AuthCookieBases: seq<string> :=
    ["sb-access-token", "sb-refresh-token", "supabase-auth-token", "__client-auth-token"]

  /** `${base}.${i}`, the name of chunk `i` of a cookie split by the auth client. */
  function ChunkName(base: string, i: nat): string
    requires i < 10
  {
    base + "." + [DigitChar(i)]
  }

  /** The names cleared for one base name, in deletion order: the name, then chunks .0 to .9. */
  function Family(base: string): seq<string>
  {
    [base] + seq(10, i requires 0 <= i < 10 => ChunkName(base, i))
  }

  function Families(bases: seq<string>): seq<string>
  {
    if bases == [] then [] else Families(bases[..|bases| - 1]) + Family(bases[|bases| - 1])
  }

  /** Every cookie name the sign-out branch deletes, in deletion order. */
  function SignOutCookieNames(): seq<string>
  {
    Families(AuthCookieBases)
  }

  /** A response cookie jar holding a deletion for each of `names`. */
  function Deleted(names: seq<string>): map<string, Cookie>
  {
    map n | n in names :: DeletedCookie
  }

  /** Deleting one more name adds its deletion to the jar. */
  lemma DeletedSnoc(names: seq<string>, n: string)
    ensures Deleted(names + [n]) == Deleted(names)[n := DeletedCookie]
  {
  }

  /** The sign-out response: redirect to /sign-in and delete each base name with its ten chunks. */
  method SignOutResponse(origin: string) returns (response: Response)
    ensures response == Response(RedirectTo(origin + "/sign-in"), map[], Deleted(SignOutCookieNames()))
  {
    response := Redirect(origin + "/sign-in");
    ghost var deleted: seq<string> := [];
    for b := 0 to |AuthCookieBases|
      invariant deleted == Families(AuthCookieBases[..b])
      invariant response == Response(RedirectTo(origin + "/sign-in"), map[], Deleted(deleted))
    {
      assert AuthCookieBases[..b + 1][..b] == AuthCookieBases[..b];
      var name := AuthCookieBases[b];
      DeletedSnoc(deleted, name);
      response := response.(cookies := response.cookies[name := DeletedCookie]);
      deleted := deleted + [name];
      for i := 0 to 10
        invariant deleted == Families(AuthCookieBases[..b]) + Family(name)[..i + 1]
        invariant response == Response(RedirectTo(origin + "/sign-in"), map[], Deleted(deleted))
      {
        assert Family(name)[..i + 2] == Family(name)[..i + 1] + [ChunkName(name, i)];
        DeletedSnoc(deleted, ChunkName(name, i));
        response := response.(cookies := response.cookies[ChunkName(name, i) := DeletedCookie]);
        deleted := deleted + [ChunkName(name, i)];
      }
      assert Family(name)[..11] == Family(name);
    }
    assert AuthCookieBases[..4] == AuthCookieBases;
  }

  /**
   * `middleware`: a request whose query has `signout` (any value) gets the
   * sign-out response and never reaches `updateSession`; any other gets
   * `updateSession`'s response plus `X-D1-Available`.
   */
  method HandleRequest(request: Request, production: bool, auth: AuthReply, profile: ProfileQuery,
                       clientFails: bool, d1Bound: bool)
    returns (response: Response)
    modifies request
    ensures QueryHas(request.query, "signout") ==>
      response == Response(RedirectTo(request.origin + "/sign-in"), map[], Deleted(SignOutCookieNames())) &&
      request.cookies == old(request.cookies)
    ensures !QueryHas(request.query, "signout") ==>
      var r := SessionResponse(request.origin, request.path, production, auth, profile, clientFails);
      response == r.(headers := r.headers["X-D1-Available" := if d1Bound then "true" else "false"])
  {
    if QueryHas(request.query, "signout") {
      response := SignOutResponse(request.origin);
      return;
    }
    response := UpdateSession(request, production, auth, profile, clientFails);
    if d1Bound {
      response := response.(headers := response.headers["X-D1-Available" := "true"]);
    } else {
      response := response.(headers := response.headers["X-D1-Available" := "false"]);
    }
  }

  // ---------------------------------------------------------------------
  // The shape of the deleted-name list

  predicate Distinct(s: seq<string>)
  {
    forall i, j :: 0 <= i < j < |s| ==> s[i] != s[j]
  }

  lemma FamiliesLength(bases: seq<string>)
    ensures |Families(bases)| == 11 * |bases|
  {
  }

  /** Every name of a family starts with its base. */
  lemma FamilyPrefix(base: string, n: string)
    requires n in Family(base)
    ensures StartsWith(n, base)
  {
    if n != base {
      var i :| 0 <= i < 10 && n == ChunkName(base, i);
      assert n[..|base|] == base;
    }
  }

  /** The names of one family are pairwise different. */
  lemma FamilyDistinct(base: string)
    ensures Distinct(Family(base))
  {
    var f := Family(base);
    forall i, j | 0 <= i < j < |f| ensures f[i] != f[j] {
      if i == 0 {
        assert |f[i]| != |f[j]|;
      } else {
        assert f[i][|base| + 1] != f[j][|base| + 1];
      }
    }
  }

  /** Names deleted for bases whose first four characters differ never coincide. */
  lemma {:induction false} FamiliesDistinct(bases: seq<string>)
    requires forall b :: b in bases ==> |b| >= 4
    requires forall i, j :: 0 <= i < j < |bases| ==> bases[i][..4] != bases[j][..4]
    ensures Distinct(Families(bases))
    ensures forall n :: n in Families(bases) ==> exists b :: b in bases && StartsWith(n, b)
    decreases |bases|
  {
    if bases != [] {
      var init := bases[..|bases| - 1];
      var last := bases[|bases| - 1];
      FamiliesDistinct(init);
      FamilyDistinct(last);
      var s, t := Families(init), Family(last);
      forall n | n in t ensures StartsWith(n, last) {
        FamilyPrefix(last, n);
      }
      forall i, j | 0 <= i < |s| && 0 <= j < |t| ensures s[i] != t[j] {
        assert s[i] in Families(init);
        var b :| b in init && StartsWith(s[i], b);
        var k :| 0 <= k < |init| && init[k] == b;
        assert StartsWith(t[j], last);
        assert bases[k][..4] != bases[|bases| - 1][..4];
        assert |b| >= 4 && |last| >= 4;
        assert s[i][..4] == b[..4] && t[j][..4] == last[..4];
      }
      assert Families(bases) == s + t;
      forall n | n in Families(bases) ensures exists b :: b in bases && StartsWith(n, b) {
        if n in s {
          var b :| b in init && StartsWith(n, b);
          assert b in bases;
        } else {
          assert StartsWith(n, last) && last in bases;
        }
      }
    }
  }

  lemma {:induction false} DistinctCard(s: seq<string>)
    requires Distinct(s)
    ensures |set n | n in s| == |s|
    decreases |s|
  {
    if s != [] {
      var init := s[..|s| - 1];
      DistinctCard(init);
      assert (set n | n in s) == (set n | n in init) + {s[|s| - 1]};
      assert s[|s| - 1] !in init;
    }
  }

  /** The four base names are at least four characters long and differ in their first four. */
  lemma BasePrefixes()
    ensures forall b :: b in AuthCookieBases ==> |b| >= 4
    ensures forall i, j :: 0 <= i < j < |AuthCookieBases| ==> AuthCookieBases[i][..4] != AuthCookieBases[j][..4]
  {
    assert AuthCookieBases[0][..4] == "sb-a";
    assert AuthCookieBases[1][..4] == "sb-r";
    assert AuthCookieBases[2][..4] == "supa";
    assert AuthCookieBases[3][..4] == "__cl";
  }

  /** Sign-out deletes 44 different cookie names: 4 base names, each plain and with chunks .0 to .9. */
  lemma SignOutDeletes44()
    ensures |SignOutCookieNames()| == 44
    ensures Distinct(SignOutCookieNames())
    ensures |Deleted(SignOutCookieNames()).Keys| == 44
  {
    FamiliesLength(AuthCookieBases);
    BasePrefixes();
    FamiliesDistinct(AuthCookieBases);
    DistinctCard(SignOutCookieNames());
    assert Deleted(SignOutCookieNames()).Keys == set n | n in SignOutCookieNames();
  }

  /** A name is deleted on sign-out exactly when it is a base name or a base name with a chunk suffix .0 to .9. */
  lemma SignOutNameShape(n: string)
    ensures n in SignOutCookieNames() <==> exists b :: b in AuthCookieBases && NameOf(b, n)
  {
    FamiliesMembers(AuthCookieBases, n);
  }

  lemma FamilyMembers(base: string, n: string)
    ensures n in Family(base) <==> n == base || exists i :: 0 <= i < 10 && n == ChunkName(base, i)
  {
    if exists i :: 0 <= i < 10 && n == ChunkName(base, i) {
      var i :| 0 <= i < 10 && n == ChunkName(base, i);
      assert Family(base)[i + 1] == n;
    }
  }

  /** `n` is one of the names deleted for base name `b`. */
  predicate NameOf(b: string, n: string)
  {
    n == b || exists i :: 0 <= i < 10 && n == ChunkName(b, i)
  }

  lemma {:induction false} FamiliesMembers(bases: seq<string>, n: string)
    ensures n in Families(bases) <==> exists b :: b in bases && NameOf(b, n)
    decreases |bases|
  {
    if bases != [] {
      var init := bases[..|bases| - 1];
      var last := bases[|bases| - 1];
      FamiliesMembers(init, n);
      FamilyMembers(last, n);
      assert Families(bases) == Families(init) + Family(last);
      if n in Families(bases) {
        if n in Families(init) {
          var b :| b in init && NameOf(b, n);
          assert b in bases;
        } else {
          assert NameOf(last, n) && last in bases;
        }
      }
      if exists b :: b in bases && NameOf(b, n) {
        var b :| b in bases && NameOf(b, n);
        if b != last {
          assert b in init;
        }
      }
    }
  }

  /** Chunk suffixes run from 0 to 9 inclusive: a base name with any larger printed suffix is never deleted. */
  lemma ChunkSuffixRange(b: string, k: nat)
    requires b in AuthCookieBases
    ensures b + "." + NatToString(k) in SignOutCookieNames() <==> k < 10
  {
    var n := b + "." + NatToString(k);
    SignOutNameShape(n);
    if k < 10 {
      assert NatToString(k) == [DigitChar(k)];
      assert n == ChunkName(b, k);
    } else {
      BasesApart();
      forall b' | b' in AuthCookieBases ensures !NameOf(b', n) {
        LongSuffixNotNamed(b, b', k);
      }
    }
  }

  /** Different base names differ in their first four characters. */
  lemma BasesApart()
    ensures forall b :: b in AuthCookieBases ==> |b| >= 4
    ensures forall b, b' :: b in AuthCookieBases && b' in AuthCookieBases && b != b' ==> b[..4] != b'[..4]
  {
    BasePrefixes();
    forall b, b' | b in AuthCookieBases && b' in AuthCookieBases && b != b' ensures b[..4] != b'[..4] {
      var x :| 0 <= x < 4 && AuthCookieBases[x] == b;
      var y :| 0 <= y < 4 && AuthCookieBases[y] == b';
      if x < y {
        assert AuthCookieBases[x][..4] != AuthCookieBases[y][..4];
      } else {
        assert AuthCookieBases[y][..4] != AuthCookieBases[x][..4];
      }
    }
  }

  /** A suffix of two or more digits is no chunk of `b`, nor any name of a base with another prefix. */
  lemma LongSuffixNotNamed(b: string, b': string, k: nat)
    requires |b| >= 4 && |b'| >= 4 && (b == b' || b[..4] != b'[..4])
    requires k >= 10
    ensures !NameOf(b', b + "." + NatToString(k))
  {
    var n := b + "." + NatToString(k);
    assert |NatToString(k)| >= 2;
    if b' == b {
      assert |n| > |b| + 2;
    } else {
      assert n[..4] == b[..4];
      assert b' != n by {
        assert b'[..4] != n[..4];
      }
      forall i | 0 <= i < 10 ensures n != ChunkName(b', i) {
        assert ChunkName(b', i)[..4] == b'[..4];
      }
    }
  }

  // ---------------------------------------------------------------------
  // config.matcher

  /** `.` in the matcher pattern: any character but a line terminator. */
  predicate AnyChar(c: char)
  {
    c != '\n' && c != '\r' && c != '\U{2028}' && c != '\U{2029}'
  }

  /**
   * `'/((?!api|_next/static|_next/image|favicon.ico).*)'`: the middleware
   * runs on a path unless the text after its leading `/` starts with one
   * of the excluded alternatives (the `.` of `favicon.ico` is a regular
   * expression wildcard).
   */
  predicate MatcherRuns(path: string)
  {
    StartsWith(path, "/") &&
    var rest := path[1..];
    !StartsWith(rest, "api") && !StartsWith(rest, "_next/static") && !StartsWith(rest, "_next/image") &&
    !(|rest| >= 11 && rest[..7] == "favicon" && AnyChar(rest[7]) && rest[8..11] == "ico")
  }

  /** The excluded alternatives are prefixes: anything after them is excluded too. */
  lemma MatcherExcludes(rest: string)
    ensures !MatcherRuns("/api" + rest)
    ensures !MatcherRuns("/_next/static" + rest)
    ensures !MatcherRuns("/_next/image" + rest)
    ensures !MatcherRuns("/favicon.ico" + rest)
  {
    assert ("/api" + rest)[1..][..3] == "api";
    assert ("/_next/static" + rest)[1..][..12] == "_next/static";
    assert ("/_next/image" + rest)[1..][..11] == "_next/image";
    assert ("/favicon.ico" + rest)[1..][..7] == "favicon";
    assert ("/favicon.ico" + rest)[1..][8..11] == "ico";
  }
}
