/**
 * The CORS origin callback: which browser origins may call the service.
 * An absent (or empty) Origin header is allowed; a present one has one
 * trailing '/' removed, is lower-cased and must then equal some lower-cased
 * entry of the allow-list exactly.
 */
module OriginPolicy {
  import opened Wrappers
  import opened Ascii

  /** The fixed allow-list of the service. */
  const AllowedOrigins: seq<string> := [
    "https://yourdomain.com",
    "https://www.yourdomain.com",
    "http://localhost:8080",
    "http://127.0.0.1:8080"
  ]

  /** The text ends in '/'. */
  predicate EndsInSlash(s: string) {
    |s| > 0 && s[|s| - 1] == '/'
  }

  /** Removes one '/' at the very end of `s`, if there is one. */
  function StripOneTrailingSlash(s: string): (r: string)
    ensures EndsInSlash(s) ==> s == r + "/"
    ensures !EndsInSlash(s) ==> r == s
  {
    if EndsInSlash(s) then s[..|s| - 1] else s
  }

  /** The form in which a present origin is compared. */
  function Normalize(origin: string): (r: string)
    ensures IsLower(r)
    ensures |r| == if EndsInSlash(origin) then |origin| - 1 else |origin|
  {
    ToLower(StripOneTrailingSlash(origin))
  }

  /** `Array.prototype.some` over the allow-list, comparing lower-cased entries. */
  predicate Listed(normalized: string, allow: seq<string>): (r: bool)
    ensures r ==> IsLower(normalized)
  {
    exists i :: 0 <= i < |allow| && ToLower(allow[i]) == normalized
  }

  /** The origin callback's verdict. */
  predicate OriginAllowed(origin: Option<string>, allow: seq<string>) {
    !Truthy(origin) || Listed(Normalize(origin.value), allow)
  }

  /** A request without an Origin header, or with an empty one, is always allowed. */
  lemma AbsentOriginAllowed(allow: seq<string>)
    ensures OriginAllowed(None, allow)
    ensures OriginAllowed(Some(""), allow)
  {
  }

  /** No entry of the list ends in '/'. */
  predicate NoEntryEndsInSlash(allow: seq<string>) {
    forall i :: 0 <= i < |allow| ==> !EndsInSlash(allow[i])
  }

  /**
   * How a present origin matches one entry: up to letter case it is the
   * entry followed by '/' when it ends in '/', and the entry itself otherwise.
   */
  predicate MatchesEntry(o: string, e: string) {
    if EndsInSlash(o) then EqIgnoreCase(o, e + "/") else EqIgnoreCase(o, e)
  }

  /** A present, non-empty origin is allowed exactly when it matches some entry. */
  lemma AllowedIff(o: string, allow: seq<string>)
    requires o != ""
    ensures OriginAllowed(Some(o), allow) <==> exists i :: 0 <= i < |allow| && MatchesEntry(o, allow[i])
  {
    var s := StripOneTrailingSlash(o);
    forall i | 0 <= i < |allow| ensures ToLower(allow[i]) == Normalize(o) <==> MatchesEntry(o, allow[i]) {
      EqIgnoreCaseIff(s, allow[i]);
      if EndsInSlash(o) {
        EqIgnoreCaseSlash(s, allow[i]);
      }
    }
  }

  /**
   * With an allow-list whose entries do not end in '/', a present origin is
   * allowed exactly when, up to letter case, it is an entry or an entry
   * followed by one '/'.
   */
  lemma AllowedIffEntryOrSlash(o: string, allow: seq<string>)
    requires o != "" && NoEntryEndsInSlash(allow)
    ensures OriginAllowed(Some(o), allow) <==>
      exists i :: 0 <= i < |allow| && (EqIgnoreCase(o, allow[i]) || EqIgnoreCase(o, allow[i] + "/"))
  {
    AllowedIff(o, allow);
    LowerCharSlash(o[|o| - 1]);
    forall i | 0 <= i < |allow|
      ensures MatchesEntry(o, allow[i]) <==> EqIgnoreCase(o, allow[i]) || EqIgnoreCase(o, allow[i] + "/")
    {
    }
  }

  /** An origin is allowed by naming the entry it matches. */
  lemma AllowedByEntry(o: string, allow: seq<string>, i: nat)
    requires i < |allow| && ToLower(allow[i]) == Normalize(o)
    ensures OriginAllowed(Some(o), allow)
  {
  }

  /** Lower-casing does not touch '/', so stripping and lower-casing commute. */
  lemma StripCommutesWithLower(s: string)
    ensures StripOneTrailingSlash(ToLower(s)) == ToLower(StripOneTrailingSlash(s))
  {
    if EndsInSlash(s) {
      ToLowerPrefix(s, |s| - 1);
    }
  }

  /** Two origins that differ only in letter case get the same verdict. */
  lemma CaseInsensitive(a: string, b: string, allow: seq<string>)
    requires ToLower(a) == ToLower(b)
    ensures OriginAllowed(Some(a), allow) == OriginAllowed(Some(b), allow)
  {
    StripCommutesWithLower(a);
    StripCommutesWithLower(b);
    assert Normalize(a) == StripOneTrailingSlash(ToLower(a));
    assert Normalize(b) == StripOneTrailingSlash(ToLower(b));
  }

  /** One trailing '/' makes no difference to the verdict. */
  lemma TrailingSlashInsensitive(o: string, allow: seq<string>)
    requires o != "" && !EndsInSlash(o)
    ensures OriginAllowed(Some(o + "/"), allow) == OriginAllowed(Some(o), allow)
  {
    assert StripOneTrailingSlash(o + "/") == o;
  }

  /**
   * Matching is exact: extending an entry by anything other than one '/'
   * gives an origin that entry does not admit.
   */
  lemma ExtensionDenied(e: string, x: string)
    requires x != "" && x != "/"
    ensures !OriginAllowed(Some(e + x), [e])
  {
    var o := e + x;
    assert |StripOneTrailingSlash(o)| > |e| by {
      if |x| == 1 {
        assert o[|o| - 1] == x[0] && x[0] != '/';
      }
    }
  }

  /**
   * Matching is exact at the front as well: text put before an entry that
   * does not end in '/' gives an origin that entry does not admit.
   */
  lemma PrefixedDenied(e: string, x: string)
    requires x != "" && e != "" && !EndsInSlash(e)
    ensures !OriginAllowed(Some(x + e), [e])
  {
    var o := x + e;
    assert o[|o| - 1] == e[|e| - 1];
    assert |Normalize(o)| > |e|;
  }

  /**
   * Only one '/' is stripped: when no entry ends in '/', an origin ending in
   * two slashes is denied.
   */
  lemma DoubleSlashDenied(o: string, allow: seq<string>)
    requires NoEntryEndsInSlash(allow)
    ensures !OriginAllowed(Some(o + "//"), allow)
  {
    var n := Normalize(o + "//");
    assert StripOneTrailingSlash(o + "//") == o + "/";
    assert n[|n| - 1] == '/';
    forall i | 0 <= i < |allow| ensures ToLower(allow[i]) != n {
      var e := allow[i];
      if |e| == |n| {
        assert ToLower(e)[|e| - 1] != '/';
      }
    }
  }

  lemma AllowedOriginsNoSlash()
    ensures NoEntryEndsInSlash(AllowedOrigins)
  {
  }

  /** `HTTPS://YourDomain.com/` is the first entry in another case and with a slash. */
  lemma MixedCaseWithSlashAllowed()
    ensures OriginAllowed(Some("HTTPS://YourDomain.com/"), AllowedOrigins)
  {
    var o := "HTTPS://YourDomain.com/";
    var stripped, e := "HTTPS://YourDomain.com", AllowedOrigins[0];
    assert StripOneTrailingSlash(o) == stripped;
    assert forall i :: 0 <= i < |e| ==> LowerChar(stripped[i]) == LowerChar(e[i]);
    assert ToLower(stripped) == ToLower(e);
    AllowedByEntry(o, AllowedOrigins, 0);
  }

  /** Matching is exact equality: a longer host with an allowed prefix is denied. */
  lemma LookalikeDenied()
    ensures !OriginAllowed(Some("https://yourdomain.com.evil"), AllowedOrigins)
  {
    var o := "https://yourdomain.com.evil";
    assert |Normalize(o)| == 27;
    forall i | 0 <= i < |AllowedOrigins| ensures |ToLower(AllowedOrigins[i])| != 27 {
    }
  }

  /** `https://yourdomain.com//` is denied: only one slash is removed. */
  lemma DoubleSlashOfEntryDenied()
    ensures !OriginAllowed(Some("https://yourdomain.com//"), AllowedOrigins)
  {
    AllowedOriginsNoSlash();
    DoubleSlashDenied("https://yourdomain.com", AllowedOrigins);
    assert "https://yourdomain.com" + "//" == "https://yourdomain.com//";
  }
}
