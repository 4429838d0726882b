/**
 * The search URL: `keyword + " in " + location` with every space replaced by
 * "%20" and placed in the Google Maps search path. Only the space is escaped,
 * so this is a partial percent-encoding in the sense of section 2.1 of
 * RFC 3986: every other character, '%' included, passes through unchanged.
 */
module Query {

  const SearchBase: string := "https://www.google.com/maps/search/"
  const Connective: string := " in "

  function CountSpaces(s: string): nat
  {
    if s == [] then 0 else (if s[0] == ' ' then 1 else 0) + CountSpaces(s[1..])
  }

  /** Python's `s.replace(' ', '%20')`. */
  function EncodeSpaces(s: string): (r: string)
    ensures ' ' !in r
    ensures |r| == |s| + 2 * CountSpaces(s)
  {
    if s == [] then []
    else (if s[0] == ' ' then "%20" else [s[0]]) + EncodeSpaces(s[1..])
  }

  /** Reads every "%20" back as a space, scanning from the left. */
  function DecodeSpaces(s: string): string
  {
    if |s| >= 3 && s[..3] == "%20" then " " + DecodeSpaces(s[3..])
    else if s == [] then []
    else [s[0]] + DecodeSpaces(s[1..])
  }

  /** Replacing spaces works character by character: it distributes over concatenation. */
  lemma {:induction false} EncodeSpacesAppend(a: string, b: string)
    ensures EncodeSpaces(a + b) == EncodeSpaces(a) + EncodeSpaces(b)
  {
    if a != [] {
      assert (a + b)[0] == a[0];
      assert (a + b)[1..] == a[1..] + b;
      EncodeSpacesAppend(a[1..], b);
    } else {
      assert a + b == b;
    }
  }

  /** A single character other than the space is left as it is. */
  lemma OtherCharacterUnchanged(c: char)
    requires c != ' '
    ensures EncodeSpaces([c]) == [c]
  {
  }

  /** On text without '%', decoding undoes the encoding: nothing but spaces was changed. */
  lemma {:induction false} DecodeEncodeSpaces(s: string)
    requires '%' !in s
    ensures DecodeSpaces(EncodeSpaces(s)) == s
  {
    if s != [] {
      var rest := EncodeSpaces(s[1..]);
      assert '%' !in s[1..] by { assert forall i | 0 <= i < |s[1..]| :: s[1..][i] == s[i + 1]; }
      DecodeEncodeSpaces(s[1..]);
      if s[0] == ' ' {
        assert EncodeSpaces(s) == "%20" + rest;
        assert (("%20" + rest)[..3]) == "%20";
        assert ("%20" + rest)[3..] == rest;
      } else {
        var e := [s[0]] + rest;
        assert EncodeSpaces(s) == e;
        assert s[0] != '%' by { assert s[0] in s; }
        assert e[0] == s[0];
        assert e[1..] == rest;
      }
      assert s == [s[0]] + s[1..];
    }
  }

  /** A literal "%20" typed by the user cannot be told apart from a space once encoded. */
  lemma EncodeSpacesNotInjective()
    ensures EncodeSpaces(" ") == EncodeSpaces("%20")
  {
  }

  /** `f"{keyword} in {location}".replace(' ', '%20')`. */
  function SearchQuery(keyword: string, location: string): (r: string)
    ensures ' ' !in r
    ensures |r| == |keyword| + |location| + |Connective| + 2 * CountSpaces(keyword + Connective + location)
  {
    EncodeSpaces(keyword + Connective + location)
  }

  /** The query is the two encoded inputs around "%20in%20". */
  lemma SearchQueryParts(keyword: string, location: string)
    ensures SearchQuery(keyword, location) == EncodeSpaces(keyword) + "%20in%20" + EncodeSpaces(location)
  {
    EncodeSpacesAppend(keyword + Connective, location);
    EncodeSpacesAppend(keyword, Connective);
    EncodedConnective();
  }

  lemma EncodedConnective()
    ensures EncodeSpaces(Connective) == "%20in%20"
  {
  }

  /** Without '%' in either input, the query decodes back to "keyword in location". */
  lemma SearchQueryDecodes(keyword: string, location: string)
    requires '%' !in keyword && '%' !in location
    ensures DecodeSpaces(SearchQuery(keyword, location)) == keyword + Connective + location
  {
    var s := keyword + Connective + location;
    forall i | 0 <= i < |s| ensures s[i] != '%' {
      if i < |keyword| {
        assert s[i] == keyword[i];
      } else if i < |keyword| + |Connective| {
        assert s[i] == Connective[i - |keyword|];
      } else {
        assert s[i] == location[i - |keyword| - |Connective|];
      }
    }
    DecodeEncodeSpaces(s);
  }

  /** The address `driver.get` is sent to. */
  function SearchUrl(keyword: string, location: string): (r: string)
    ensures ' ' !in r
    ensures |r| == |SearchBase| + |SearchQuery(keyword, location)| + 1
    ensures r[..|SearchBase|] == SearchBase && r[|r| - 1] == '/'
    ensures r[|SearchBase|..|r| - 1] == SearchQuery(keyword, location)
  {
    SearchBase + SearchQuery(keyword, location) + "/"
  }
}
