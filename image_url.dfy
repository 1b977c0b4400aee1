/**
 * The image URL helpers (utils/image-url.ts): the public URL of a stored
 * image with optional size parameters, the avatar URL, and the SVG data
 * URL shown when there is no image. `NEXT_PUBLIC_APP_URL` is a parameter.
 */
module ImageUrl {
  import opened Common
  import opened Uri

  const DefaultBase := "https://opendots-alphav1.pages.dev"

  /** The `{ width?, height? }` options: absent numbers are None. */
  datatype ImageOptions = ImageOptions(width: Option<int>, height: Option<int>)

  /** JavaScript truthiness of an optional number: present and non-zero. */
  predicate NumTruthy(n: Option<int>)
  {
    n.Some? && n.value != 0
  }

  /** The size a reader of the URL should see: the number, or 0 when absent. */
  function OrZero(n: Option<int>): int
  {
    if n.Some? then n.value else 0
  }

  /** The parameters appended to the `URLSearchParams`, width before height. */
  function ImageParams(o: ImageOptions): (ps: Query)
    ensures |ps| <= 2
    ensures QueryHas(ps, "width") <==> NumTruthy(o.width)
    ensures QueryHas(ps, "height") <==> NumTruthy(o.height)
    ensures forall k :: 0 <= k < |ps| ==> PlainName(ps[k].0) && IsAscii(ps[k].1)
  {
    var w: Query := if NumTruthy(o.width) then [("width", IntToString(OrZero(o.width)))] else [];
    var h: Query := if NumTruthy(o.height) then [("height", IntToString(OrZero(o.height)))] else [];
    assert PlainName("width") && PlainName("height") && "width" != "height";
    IntToStringUnreserved(OrZero(o.width));
    IntToStringUnreserved(OrZero(o.height));
    OptionalPairs("width", IntToString(OrZero(o.width)), NumTruthy(o.width),
                  "height", IntToString(OrZero(o.height)), NumTruthy(o.height));
    w + h
  }

  /** Two pairs with different names, each present only when its flag holds. */
  lemma OptionalPairs(n1: string, v1: string, g1: bool, n2: string, v2: string, g2: bool)
    requires n1 != n2
    ensures var ps: Query := (if g1 then [(n1, v1)] else []) + (if g2 then [(n2, v2)] else []);
      |ps| <= 2 && (QueryHas(ps, n1) <==> g1) && (QueryHas(ps, n2) <==> g2) &&
      forall k :: 0 <= k < |ps| ==> ps[k] == (n1, v1) || ps[k] == (n2, v2)
  {
    var ps: Query := (if g1 then [(n1, v1)] else []) + (if g2 then [(n2, v2)] else []);
    if g1 { assert ps[0] == (n1, v1); }
    if g2 { assert ps[|ps| - 1] == (n2, v2); }
  }

  /** A printed integer is made of unreserved ASCII characters (digits and an optional minus sign). */
  lemma IntToStringUnreserved(i: int)
    ensures forall k :: 0 <= k < |IntToString(i)| ==> Unreserved(IntToString(i)[k])
    ensures IsAscii(IntToString(i))
  {
    var s := IntToString(i);
    if i < 0 {
      assert forall k :: 1 <= k < |s| ==> s[k] == NatToString(-i)[k - 1];
    }
  }

  /** `getImageUrl(key, options)`. */
  function GetImageUrl(key: string, options: Option<ImageOptions>, appUrl: Option<string>): (url: string)
    ensures StartsWith(url, OrElse(appUrl, DefaultBase) + "/images/" + key)
    // without options, or with only falsy sizes, there is no query at all
    ensures options.None? || ImageParams(options.value) == [] ==> url == OrElse(appUrl, DefaultBase) + "/images/" + key
    ensures '?' !in OrElse(appUrl, DefaultBase) + "/images/" + key ==>
      ('?' in url <==> options.Some? && ImageParams(options.value) != [])
  {
    var url := OrElse(appUrl, DefaultBase) + "/images/" + key;
    if options.Some? && ImageParams(options.value) != [] then
      var paramsString := BuildQuery(ImageParams(options.value));
      assert url + "?" + paramsString == url + ("?" + paramsString);
      url + "?" + paramsString
    else url
  }

  /**
   * `getProfileAvatarUrl(key, size = 128)`: the same size for width and
   * height, so the URL carries both in the query, or no query at all when
   * the size is 0.
   */
  function GetProfileAvatarUrl(key: string, size: Option<int>, appUrl: Option<string>): (url: string)
    ensures var s := if size.Some? then size.value else 128;
      url == OrElse(appUrl, DefaultBase) + "/images/" + key +
        (if s != 0 then "?width=" + IntToString(s) + "&height=" + IntToString(s) else "")
  {
    var s := if size.Some? then size.value else 128;
    SquareUrl(key, s, appUrl);
    GetImageUrl(key, Some(ImageOptions(Some(s), Some(s))), appUrl)
  }

  /** The image URL of a square size, written out. */
  lemma SquareUrl(key: string, s: int, appUrl: Option<string>)
    ensures GetImageUrl(key, Some(ImageOptions(Some(s), Some(s))), appUrl) ==
      OrElse(appUrl, DefaultBase) + "/images/" + key +
        (if s != 0 then "?width=" + IntToString(s) + "&height=" + IntToString(s) else "")
  {
    var base := OrElse(appUrl, DefaultBase) + "/images/" + key;
    if s != 0 {
      NonZeroSquareUrl(key, s, appUrl, base);
    } else {
      assert ImageParams(ImageOptions(Some(s), Some(s))) == [];
      assert base + "" == base;
    }
  }

  lemma NonZeroSquareUrl(key: string, s: int, appUrl: Option<string>, base: string)
    requires s != 0 && base == OrElse(appUrl, DefaultBase) + "/images/" + key
    ensures GetImageUrl(key, Some(ImageOptions(Some(s), Some(s))), appUrl) ==
      base + ("?width=" + IntToString(s) + "&height=" + IntToString(s))
  {
    var n := IntToString(s);
    SquareParams(s);
    SquareQuery(s);
    QueriedUrl(key, ImageOptions(Some(s), Some(s)), appUrl);
    QueryAfterBase(base, n);
  }

  lemma QueryAfterBase(base: string, n: string)
    ensures base + "?" + ("width=" + n + "&height=" + n) == base + ("?width=" + n + "&height=" + n)
  {
    assert "?" + "width=" == "?width=";
    assert base + "?" + ("width=" + n + "&height=" + n) == base + ("?" + "width=" + n + "&height=" + n);
  }

  /** A non-zero square size puts both parameters in the query, width first. */
  lemma SquareParams(s: int)
    requires s != 0
    ensures ImageParams(ImageOptions(Some(s), Some(s))) == [("width", IntToString(s)), ("height", IntToString(s))]
  {
  }

  /** With some truthy size, the URL is the base, `?` and the built query. */
  lemma QueriedUrl(key: string, o: ImageOptions, appUrl: Option<string>)
    requires ImageParams(o) != []
    ensures GetImageUrl(key, Some(o), appUrl) == OrElse(appUrl, DefaultBase) + "/images/" + key + "?" + BuildQuery(ImageParams(o))
  {
  }

  /** The query of a square size: both numbers, unescaped, width first. */
  lemma SquareQuery(i: int)
    ensures BuildQuery([("width", IntToString(i)), ("height", IntToString(i))]) ==
      "width=" + IntToString(i) + "&height=" + IntToString(i)
  {
    var n := IntToString(i);
    var ps: Query := [("width", n), ("height", n)];
    IntToStringUnreserved(i);
    EncodeUnreserved(n);
    assert ps[1..] == [("height", n)] && ps[1..][1..] == [];
    assert PairText(ps[0]) == "width=" + n && PairText(ps[1]) == "height=" + n;
    assert PairTexts(ps[1..]) == ["height=" + n];
    assert PairTexts(ps) == ["width=" + n, "height=" + n];
    var t := PairTexts(ps);
    assert t[1..] == ["height=" + n];
    assert Join(t[1..], "&") == "height=" + n;
    assert Join(t, "&") == "width=" + n + "&" + ("height=" + n);
    assert "width=" + n + "&" + ("height=" + n) == "width=" + n + "&height=" + n;
  }

  /**
   * The letter shown in the fallback avatar: the first character of the
   * name, else of the e-mail, in upper case; `?` when both are absent or
   * empty. Upper-casing is modelled for ASCII letters.
   */
  function Initial(name: Option<string>, email: Option<string>): (i: string)
    ensures |i| == 1 && !IsLower(i[0])
    // the name wins over the e-mail, and the letter keeps its identity up to case
    ensures Truthy(name) ==> ToLower(i[0]) == ToLower(name.value[0])
    ensures !Truthy(name) && Truthy(email) ==> ToLower(i[0]) == ToLower(email.value[0])
    ensures !Truthy(name) && !Truthy(email) ==> i == "?"
  {
    if Truthy(name) then [ToUpper(name.value[0])]
    else if Truthy(email) then [ToUpper(email.value[0])]
    else "?"
  }

  /** The SVG data URL up to the initial, and after it. */
  const SvgHead := "data:image/svg+xml,%3Csvg xmlns='http://www.w3.org/2000/svg' viewBox='0 0 100 100' width='100' height='100'%3E%3Crect width='100' height='100' fill='%23718096'/%3E%3Ctext x='50' y='50' font-family='Arial' font-size='50' fill='white' text-anchor='middle' dominant-baseline='central'%3E"
  const SvgTail := "%3C/text%3E%3C/svg%3E"

  /** `getInitialAvatar(name, email)`: an SVG data URL whose text is the initial. */
  function GetInitialAvatar(name: Option<string>, email: Option<string>): (svg: string)
    ensures StartsWith(svg, SvgHead) && EndsWith(svg, SvgTail)
    // the text between the fixed parts is exactly the initial
    ensures |svg| == |SvgHead| + 1 + |SvgTail|
    ensures svg[|SvgHead|..|svg| - |SvgTail|] == Initial(name, email)
  {
    var svg := SvgHead + Initial(name, email) + SvgTail;
    assert svg[..|SvgHead|] == SvgHead;
    assert svg[|svg| - |SvgTail|..] == SvgTail;
    assert svg[|SvgHead|..|svg| - |SvgTail|] == Initial(name, email);
    svg
  }
}
