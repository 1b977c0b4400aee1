/**
 * The client details collected before an OAuth sign-in (utils/user-info.ts):
 * platform and browser labels from the user agent, matched with
 * case-insensitive regular expressions in a fixed order, and a
 * `city, country` location from a geolocation lookup. The user agent and
 * the lookup's outcome are parameters.
 */
module UserInfo {
  import opened Common
  import opened Uri
  import OAuthActions

  // ---------------------------------------------------------------------
  // Platform

  const PlatformLabels: seq<string> :=
    ["Mobile - Android", "Mobile - iOS", "Desktop - Windows", "Desktop - Mac", "Desktop - Linux"]

  /** Rule `k` of the platform chain: `/Android/i`, `/iPhone|iPad|iPod/i`, `/Windows/i`, `/Mac/i`, `/Linux/i`. */
  predicate PlatformRule(ua: string, k: nat)
  {
    if k == 0 then ContainsIgnoreCase(ua, "android")
    else if k == 1 then ContainsIgnoreCase(ua, "iphone") || ContainsIgnoreCase(ua, "ipad") || ContainsIgnoreCase(ua, "ipod")
    else if k == 2 then ContainsIgnoreCase(ua, "windows")
    else if k == 3 then ContainsIgnoreCase(ua, "mac")
    else k == 4 && ContainsIgnoreCase(ua, "linux")
  }

  /** `getPlatformInfo()`. */
  function GetPlatformInfo(ua: string): (p: string)
    ensures p in PlatformLabels || p == "Unknown Platform"
  {
    if ContainsIgnoreCase(ua, "android") then "Mobile - Android"
    else if ContainsIgnoreCase(ua, "iphone") || ContainsIgnoreCase(ua, "ipad") || ContainsIgnoreCase(ua, "ipod") then "Mobile - iOS"
    else if ContainsIgnoreCase(ua, "windows") then "Desktop - Windows"
    else if ContainsIgnoreCase(ua, "mac") then "Desktop - Mac"
    else if ContainsIgnoreCase(ua, "linux") then "Desktop - Linux"
    else "Unknown Platform"
  }

  /** The platform is the label of the first rule that matches, and only then. */
  lemma PlatformFirstMatch(ua: string, k: nat)
    requires k < |PlatformLabels|
    ensures GetPlatformInfo(ua) == PlatformLabels[k] <==>
      PlatformRule(ua, k) && forall j :: 0 <= j < k ==> !PlatformRule(ua, j)
  {
    var p := GetPlatformInfo(ua);
    if k == 0 {
    } else if k == 1 {
      assert p == PlatformLabels[1] <==> !PlatformRule(ua, 0) && PlatformRule(ua, 1);
    } else if k == 2 {
      assert p == PlatformLabels[2] <==> !PlatformRule(ua, 0) && !PlatformRule(ua, 1) && PlatformRule(ua, 2);
    } else if k == 3 {
      assert p == PlatformLabels[3] <==>
        !PlatformRule(ua, 0) && !PlatformRule(ua, 1) && !PlatformRule(ua, 2) && PlatformRule(ua, 3);
    } else {
      assert p == PlatformLabels[4] <==>
        !PlatformRule(ua, 0) && !PlatformRule(ua, 1) && !PlatformRule(ua, 2) && !PlatformRule(ua, 3) && PlatformRule(ua, 4);
    }
  }

  /** `Unknown Platform` exactly when no rule matches. */
  lemma PlatformUnknown(ua: string)
    ensures GetPlatformInfo(ua) == "Unknown Platform" <==> forall k :: 0 <= k < |PlatformLabels| ==> !PlatformRule(ua, k)
  {
    if GetPlatformInfo(ua) != "Unknown Platform" {
      var k :| 0 <= k < |PlatformLabels| && GetPlatformInfo(ua) == PlatformLabels[k];
      PlatformFirstMatch(ua, k);
    } else {
      forall k | 0 <= k < |PlatformLabels| ensures !PlatformRule(ua, k) {
        assert k == 0 || k == 1 || k == 2 || k == 3 || k == 4;
      }
    }
  }

  // ---------------------------------------------------------------------
  // Browser

  const BrowserLabels: seq<string> := ["Chrome", "Firefox", "Safari", "Edge", "Internet Explorer", "Opera"]

  /** Rule `k` of the browser chain, with the exclusions of the Chrome and Safari rules. */
  predicate BrowserRule(ua: string, k: nat)
  {
    if k == 0 then ContainsIgnoreCase(ua, "chrome") && !(ContainsIgnoreCase(ua, "chromium") || ContainsIgnoreCase(ua, "edge"))
    else if k == 1 then ContainsIgnoreCase(ua, "firefox")
    else if k == 2 then ContainsIgnoreCase(ua, "safari") && !ContainsIgnoreCase(ua, "chrome")
    else if k == 3 then ContainsIgnoreCase(ua, "edge")
    else if k == 4 then ContainsIgnoreCase(ua, "msie") || ContainsIgnoreCase(ua, "trident")
    else k == 5 && (ContainsIgnoreCase(ua, "opera") || ContainsIgnoreCase(ua, "opr"))
  }

  /** `getBrowserInfo()`. */
  function GetBrowserInfo(ua: string): (b: string)
    ensures b in BrowserLabels || b == "Unknown Browser"
  {
    if ContainsIgnoreCase(ua, "chrome") && !(ContainsIgnoreCase(ua, "chromium") || ContainsIgnoreCase(ua, "edge")) then "Chrome"
    else if ContainsIgnoreCase(ua, "firefox") then "Firefox"
    else if ContainsIgnoreCase(ua, "safari") && !ContainsIgnoreCase(ua, "chrome") then "Safari"
    else if ContainsIgnoreCase(ua, "edge") then "Edge"
    else if ContainsIgnoreCase(ua, "msie") || ContainsIgnoreCase(ua, "trident") then "Internet Explorer"
    else if ContainsIgnoreCase(ua, "opera") || ContainsIgnoreCase(ua, "opr") then "Opera"
    else "Unknown Browser"
  }

  /** The browser is the label of the first rule that matches, and only then. */
  lemma BrowserFirstMatch(ua: string, k: nat)
    requires k < |BrowserLabels|
    ensures GetBrowserInfo(ua) == BrowserLabels[k] <==>
      BrowserRule(ua, k) && forall j :: 0 <= j < k ==> !BrowserRule(ua, j)
  {
    var b := GetBrowserInfo(ua);
    if k == 0 {
    } else if k == 1 {
      assert b == BrowserLabels[1] <==> !BrowserRule(ua, 0) && BrowserRule(ua, 1);
    } else if k == 2 {
      assert b == BrowserLabels[2] <==> !BrowserRule(ua, 0) && !BrowserRule(ua, 1) && BrowserRule(ua, 2);
    } else if k == 3 {
      assert b == BrowserLabels[3] <==>
        !BrowserRule(ua, 0) && !BrowserRule(ua, 1) && !BrowserRule(ua, 2) && BrowserRule(ua, 3);
    } else if k == 4 {
      assert b == BrowserLabels[4] <==>
        !BrowserRule(ua, 0) && !BrowserRule(ua, 1) && !BrowserRule(ua, 2) && !BrowserRule(ua, 3) && BrowserRule(ua, 4);
    } else {
      assert b == BrowserLabels[5] <==>
        !BrowserRule(ua, 0) && !BrowserRule(ua, 1) && !BrowserRule(ua, 2) && !BrowserRule(ua, 3) && !BrowserRule(ua, 4)
        && BrowserRule(ua, 5);
    }
  }

  /** `Unknown Browser` exactly when no rule matches. */
  lemma BrowserUnknown(ua: string)
    ensures GetBrowserInfo(ua) == "Unknown Browser" <==> forall k :: 0 <= k < |BrowserLabels| ==> !BrowserRule(ua, k)
  {
    if GetBrowserInfo(ua) != "Unknown Browser" {
      var k :| 0 <= k < |BrowserLabels| && GetBrowserInfo(ua) == BrowserLabels[k];
      BrowserFirstMatch(ua, k);
    } else {
      forall k | 0 <= k < |BrowserLabels| ensures !BrowserRule(ua, k) {
        assert k == 0 || k == 1 || k == 2 || k == 3 || k == 4 || k == 5;
      }
    }
  }

  /** A user agent naming both Chrome and Edge (and not Firefox) is labelled Edge, never Chrome or Safari. */
  lemma ChromeAndEdgeIsEdge(ua: string)
    requires ContainsIgnoreCase(ua, "chrome") && ContainsIgnoreCase(ua, "edge") && !ContainsIgnoreCase(ua, "firefox")
    ensures GetBrowserInfo(ua) == "Edge"
  {
    assert BrowserRule(ua, 3);
    assert !BrowserRule(ua, 0) && !BrowserRule(ua, 1) && !BrowserRule(ua, 2);
  }

  // ---------------------------------------------------------------------
  // Location

  /** A successful geolocation answer: its `city` and `country_name`, each possibly absent. */
  datatype LocationData = LocationData(city: Option<string>, countryName: Option<string>)

  /** The location string: `unknown` when the lookup fails, else `city, country` with `Unknown` for a missing part. */
  function Location(lookup: Option<LocationData>): (loc: string)
    ensures lookup.None? ==> loc == "unknown"
    ensures lookup.Some? ==>
      StartsWith(loc, OrElse(lookup.value.city, "Unknown") + ", ") &&
      EndsWith(loc, ", " + OrElse(lookup.value.countryName, "Unknown")) &&
      |loc| == |OrElse(lookup.value.city, "Unknown")| + 2 + |OrElse(lookup.value.countryName, "Unknown")|
  {
    match lookup
    case None => "unknown"
    case Some(d) =>
      var city := OrElse(d.city, "Unknown");
      var loc := city + ", " + OrElse(d.countryName, "Unknown");
      assert loc[..|city| + 2] == city + ", ";
      loc
  }

  /** The record `getUserInfo` resolves to. */
  datatype ClientInfo = ClientInfo(platform: string, browser: string, location: string)

  function GetUserInfo(ua: string, lookup: Option<LocationData>): (info: ClientInfo)
    ensures info.platform == GetPlatformInfo(ua) && info.browser == GetBrowserInfo(ua)
    ensures info.location == Location(lookup)
    // none of the three is ever empty, so the sign-in action keeps them as given
    ensures info.platform != "" && info.browser != "" && info.location != ""
  {
    ClientInfo(GetPlatformInfo(ua), GetBrowserInfo(ua), Location(lookup))
  }

  /** Every label is ASCII text. */
  lemma LabelsAscii(ua: string)
    ensures IsAscii(GetPlatformInfo(ua)) && IsAscii(GetBrowserInfo(ua))
  {
    PlatformLabelsAscii();
    BrowserLabelsAscii();
  }

  lemma PlatformLabelsAscii()
    ensures forall k :: 0 <= k < |PlatformLabels| ==> IsAscii(PlatformLabels[k])
    ensures IsAscii("Unknown Platform")
  {
  }

  lemma BrowserLabelsAscii()
    ensures forall k :: 0 <= k < |BrowserLabels| ==> IsAscii(BrowserLabels[k])
    ensures IsAscii("Unknown Browser")
  {
  }

  /** The location text is ASCII when the city and country it is made of are. */
  lemma LocationAscii(lookup: Option<LocationData>)
    requires lookup.Some? ==> IsAscii(OrElse(lookup.value.city, "Unknown")) && IsAscii(OrElse(lookup.value.countryName, "Unknown"))
    ensures IsAscii(Location(lookup))
  {
    if lookup.Some? {
      var city := OrElse(lookup.value.city, "Unknown");
      var country := OrElse(lookup.value.countryName, "Unknown");
      assert Location(lookup) == city + ", " + country;
      assert IsAscii(", ");
    } else {
      assert IsAscii("unknown");
    }
  }

  /**
   * The details the client collects reach the callback route unchanged:
   * the sign-in action puts them on the callback URL and the route reads
   * back the same three strings (for an ASCII city and country).
   */
  lemma ClientInfoReachesCallback(ua: string, lookup: Option<LocationData>, serverUserAgent: string)
    requires lookup.Some? ==> IsAscii(OrElse(lookup.value.city, "Unknown")) && IsAscii(OrElse(lookup.value.countryName, "Unknown"))
    ensures var info := GetUserInfo(ua, lookup);
      var sent := OAuthActions.UserInfo(Some(info.platform), Some(info.browser), Some(info.location));
      var ps := OAuthActions.CallbackPairs(sent, serverUserAgent);
      var q := OAuthActions.CallbackQuery(EncodeURIComponent(ps[0].1), EncodeURIComponent(ps[1].1), EncodeURIComponent(ps[2].1));
      QueryGet(ParseQuery(q), "platform") == Some(info.platform) &&
      QueryGet(ParseQuery(q), "browser") == Some(info.browser) &&
      QueryGet(ParseQuery(q), "location") == Some(info.location)
  {
    var info := GetUserInfo(ua, lookup);
    var sent := OAuthActions.UserInfo(Some(info.platform), Some(info.browser), Some(info.location));
    LabelsAscii(ua);
    LocationAscii(lookup);
    OAuthActions.GivenPairs(info.platform, info.browser, info.location, serverUserAgent);
    var ps := OAuthActions.CallbackPairs(sent, serverUserAgent);
    assert ps[0].1 == info.platform && ps[1].1 == info.browser && ps[2].1 == info.location;
    assert forall k :: 0 <= k < 3 ==> IsAscii(ps[k].1) by {
      forall k | 0 <= k < 3 ensures IsAscii(ps[k].1) {
        if k == 0 { } else if k == 1 { } else { }
      }
    }
    OAuthActions.CallbackReceivesUserInfo(sent, serverUserAgent);
  }
}
