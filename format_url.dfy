/**
 * The first step of `formatURL` in HeroSection.js: trim the input and give it
 * an `https://` prefix unless it already names the http or https scheme.
 * The `new URL(...)` parse that follows is not part of this model.
 */
module FormatUrl {

  /** JavaScript's WhiteSpace and LineTerminator characters, which `String.prototype.trim` removes. */
  predicate IsJsWhitespace(c: char) {
    var n := c as int;
    n == 0x09 || n == 0x0A || n == 0x0B || n == 0x0C || n == 0x0D || n == 0x20
    || n == 0xA0 || n == 0x1680 || (0x2000 <= n <= 0x200A) || n == 0x2028 || n == 0x2029
    || n == 0x202F || n == 0x205F || n == 0x3000 || n == 0xFEFF
  }

  /** Neither the first nor the last character is whitespace. */
  predicate IsTrimmed(s: string) {
    s == [] || (!IsJsWhitespace(s[0]) && !IsJsWhitespace(s[|s| - 1]))
  }

  /** Drops the leading whitespace: the result is a suffix of s and all that was dropped is whitespace. */
  function TrimStart(s: string): (r: string)
    ensures |r| <= |s| && r == s[|s| - |r|..]
    ensures forall k :: 0 <= k < |s| - |r| ==> IsJsWhitespace(s[k])
    ensures r == [] || !IsJsWhitespace(r[0])
  {
    if s != [] && IsJsWhitespace(s[0]) then TrimStart(s[1..]) else s
  }

  /** Drops the trailing whitespace: the result is a prefix of s and all that was dropped is whitespace. */
  function TrimEnd(s: string): (r: string)
    ensures |r| <= |s| && r == s[..|r|]
    ensures forall k :: |r| <= k < |s| ==> IsJsWhitespace(s[k])
    ensures r == [] || !IsJsWhitespace(r[|r| - 1])
  {
    if s != [] && IsJsWhitespace(s[|s| - 1]) then TrimEnd(s[..|s| - 1]) else s
  }

  /** `url.trim()`. */
  function Trim(s: string): (r: string)
    ensures IsTrimmed(r)
    ensures |r| <= |s|
    ensures exists i, j :: 0 <= i <= j <= |s| && r == s[i..j] && OuterWhitespace(s, i, j)
  {
    var t := TrimStart(s);
    var r := TrimEnd(t);
    SliceOfSuffix(s, t, r, |s| - |t|, |s| - |t| + |r|);
    r
  }

  /** A prefix r of a suffix t of s is the slice s[i..j] that starts where t does. */
  lemma SliceOfSuffix(s: string, t: string, r: string, i: nat, j: nat)
    requires |t| <= |s| && t == s[|s| - |t|..]
    requires forall k :: 0 <= k < |s| - |t| ==> IsJsWhitespace(s[k])
    requires |r| <= |t| && r == t[..|r|]
    requires forall k :: |r| <= k < |t| ==> IsJsWhitespace(t[k])
    requires i == |s| - |t| && j == i + |r|
    ensures i <= j <= |s| && r == s[i..j] && OuterWhitespace(s, i, j)
  {
    forall k | j <= k < |s| ensures IsJsWhitespace(s[k]) {
      assert s[k] == t[k - i];
    }
  }

  /** Everything of s outside s[i..j] is whitespace. */
  predicate OuterWhitespace(s: string, i: nat, j: nat)
    requires i <= j <= |s|
  {
    forall k :: 0 <= k < |s| && (k < i || j <= k) ==> IsJsWhitespace(s[k])
  }

  /** A string that is already trimmed is its own trim. */
  lemma TrimmedIsFixed(s: string)
    requires IsTrimmed(s)
    ensures Trim(s) == s
  {
    assert TrimStart(s) == s;
  }

  /** ASCII case folding, the only folding a non-Unicode `/i` regular expression applies to ASCII letters. */
  function LowerAscii(c: char): char {
    if 'A' <= c <= 'Z' then (c as int + 32) as char else c
  }

  /** s starts with the lower-case prefix, ignoring ASCII case. */
  predicate StartsWithIgnoringCase(s: string, prefix: string) {
    |prefix| <= |s| && forall i :: 0 <= i < |prefix| ==> LowerAscii(s[i]) == prefix[i]
  }

  /** The test `/^https?:\/\//i`. */
  predicate HasHttpScheme(s: string) {
    StartsWithIgnoringCase(s, "http://") || StartsWithIgnoringCase(s, "https://")
  }

  /** The value of `formattedUrl` at line 23 of formatURL. */
  function WithDefaultScheme(url: string): (r: string)
    ensures HasHttpScheme(r) && IsTrimmed(r)
    ensures HasHttpScheme(Trim(url)) ==> r == Trim(url)
    ensures !HasHttpScheme(Trim(url)) ==> r == "https://" + Trim(url)
  {
    var t := Trim(url);
    if HasHttpScheme(t) then t else PrefixedHasScheme(t); "https://" + t
  }

  lemma PrefixedHasScheme(t: string)
    requires IsTrimmed(t)
    ensures HasHttpScheme("https://" + t) && IsTrimmed("https://" + t)
  {
    var r := "https://" + t;
    forall i | 0 <= i < 8
      ensures LowerAscii(r[i]) == "https://"[i]
    {
      assert r[i] == "https://"[i];
    }
    assert r[0] == 'h';
    assert r[|r| - 1] == if t == [] then '/' else t[|t| - 1];
  }

  /** Lines 20-22 of formatURL, reassigning `formattedUrl` as the source does. */
  method PrefixScheme(url: string) returns (formattedUrl: string)
    ensures formattedUrl == WithDefaultScheme(url)
    ensures HasHttpScheme(formattedUrl)
    ensures |formattedUrl| <= |url| + 8
  {
    formattedUrl := Trim(url);
    if !HasHttpScheme(formattedUrl) {
      formattedUrl := "https://" + formattedUrl;
    }
  }

  /** Prefixing a URL that has already been prefixed changes nothing. */
  lemma WithDefaultSchemeIdempotent(url: string)
    ensures WithDefaultScheme(WithDefaultScheme(url)) == WithDefaultScheme(url)
  {
    TrimmedIsFixed(WithDefaultScheme(url));
  }

  /** An input that already starts with a scheme, in any letter case, is only trimmed. */
  lemma SchemeKept(url: string)
    requires HasHttpScheme(url) && IsTrimmed(url)
    ensures WithDefaultScheme(url) == url
  {
    TrimmedIsFixed(url);
  }
}
