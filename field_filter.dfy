/**
 * The clean-up applied to every value sent to the gateway: a few HTML
 * entities are decoded, the characters the gateway rejects are replaced by
 * look-alikes (and '&' by '@' for the direct method), and selected fields are
 * cut to the gateway's byte limits.
 */
module FieldFilter {
  import opened PhpStrings
  import opened PhpArrays

  /** `html_decode`: &quot; &apos; &#039; &amp; decoded in that order, each over the whole string. */
  function HtmlDecode(s: string): string
  {
    var s1 := ReplaceAll(s, "&quot;", "\"");
    var s2 := ReplaceAll(s1, "&apos;", "'");
    var s3 := ReplaceAll(s2, "&#039;", "'");
    ReplaceAll(s3, "&amp;", "&")
  }

  /** `replace_ampersand`: every '&' becomes '@'. */
  function ReplaceAmpersand(s: string): string
  {
    ReplaceAll(s, "&", "@")
  }

  /** The seven characters the gateway does not accept. */
  predicate Unsupported(c: char)
  {
    c == '"' || c == '\'' || c == '\\' || c == '<' || c == '>' || c == '[' || c == ']'
  }

  /** The replacement of each unsupported character; every other character is kept. */
  function Substitute(c: char): (d: char)
    ensures !Unsupported(d)
    ensures !Unsupported(c) ==> d == c
  {
    if c == '"' || c == '\'' then '`'
    else if c == '\\' then '/'
    else if c == '<' || c == '[' then '('
    else if c == '>' || c == ']' then ')'
    else c
  }

  /** The substitutions of `filter_unsupported_chars`, applied one after the other as `str_replace` does. */
  function ReplaceUnsupported(s: string): string
  {
    var s1 := ReplaceAll(s, "\"", "`");
    var s2 := ReplaceAll(s1, "'", "`");
    var s3 := ReplaceAll(s2, "\\", "/");
    var s4 := ReplaceAll(s3, "<", "(");
    var s5 := ReplaceAll(s4, ">", ")");
    var s6 := ReplaceAll(s5, "[", "(");
    ReplaceAll(s6, "]", ")")
  }

  /** `filter_unsupported_chars($data, $replace_ampersand)`. */
  function FilterUnsupportedChars(s: string, replaceAmpersand: bool): string
  {
    var decoded := HtmlDecode(s);
    var t := if replaceAmpersand then ReplaceAmpersand(decoded) else decoded;
    ReplaceUnsupported(t)
  }

  function MapChars(s: string, f: char -> char): (r: string)
    ensures |r| == |s|
    ensures forall i :: 0 <= i < |s| ==> r[i] == f(s[i])
  {
    if s == [] then [] else [f(s[0])] + MapChars(s[1..], f)
  }

  /** Replacing a one-character search string is a character-by-character map. */
  lemma {:induction false} ReplaceOneChar(s: string, a: char, b: char)
    ensures ReplaceAll(s, [a], [b]) == MapChars(s, c => if c == a then b else c)
    decreases |s|
  {
    if s != [] {
      ReplaceOneChar(s[1..], a, b);
    }
  }

  /**
   * Because no replacement character is itself searched for later, the seven
   * sequential replacements amount to one pass of `Substitute`.
   */
  lemma ReplaceUnsupportedIsMap(s: string)
    ensures ReplaceUnsupported(s) == MapChars(s, Substitute)
  {
    ReplaceOneChar(s, '"', '`');
    var s1 := ReplaceAll(s, "\"", "`");
    ReplaceOneChar(s1, '\'', '`');
    var s2 := ReplaceAll(s1, "'", "`");
    ReplaceOneChar(s2, '\\', '/');
    var s3 := ReplaceAll(s2, "\\", "/");
    ReplaceOneChar(s3, '<', '(');
    var s4 := ReplaceAll(s3, "<", "(");
    ReplaceOneChar(s4, '>', ')');
    var s5 := ReplaceAll(s4, ">", ")");
    ReplaceOneChar(s5, '[', '(');
    var s6 := ReplaceAll(s5, "[", "(");
    ReplaceOneChar(s6, ']', ')');
  }

  /** The filtered value never contains a character the gateway rejects, and has the decoded length. */
  lemma FilterRemovesUnsupported(s: string, replaceAmpersand: bool)
    ensures forall i :: 0 <= i < |FilterUnsupportedChars(s, replaceAmpersand)| ==>
      !Unsupported(FilterUnsupportedChars(s, replaceAmpersand)[i])
  {
    var decoded := HtmlDecode(s);
    var t := if replaceAmpersand then ReplaceAmpersand(decoded) else decoded;
    ReplaceUnsupportedIsMap(t);
  }

  /** With the ampersand flag the result has no '&'; without it every decoded '&' is kept in place. */
  lemma FilterAmpersand(s: string, replaceAmpersand: bool)
    ensures replaceAmpersand ==> NoChar(FilterUnsupportedChars(s, replaceAmpersand), '&')
    ensures !replaceAmpersand ==>
      |FilterUnsupportedChars(s, false)| == |HtmlDecode(s)| &&
      forall i :: 0 <= i < |HtmlDecode(s)| && HtmlDecode(s)[i] == '&' ==> FilterUnsupportedChars(s, false)[i] == '&'
  {
    var decoded := HtmlDecode(s);
    if replaceAmpersand {
      ReplaceOneChar(decoded, '&', '@');
      ReplaceUnsupportedIsMap(ReplaceAmpersand(decoded));
    } else {
      ReplaceUnsupportedIsMap(decoded);
    }
  }

  lemma {:induction false} ReplaceAbsent(s: string, pat: string, rep: string)
    requires |pat| > 0 && NoChar(s, pat[0])
    ensures ReplaceAll(s, pat, rep) == s
    decreases |s|
  {
    if |s| >= |pat| {
      assert s[..|pat|][0] == s[0];
      ReplaceAbsent(s[1..], pat, rep);
    }
  }

  /** A value without '&' holds no entity, so decoding leaves it unchanged. */
  lemma HtmlDecodeWithoutAmpersand(s: string)
    requires NoChar(s, '&')
    ensures HtmlDecode(s) == s
  {
    ReplaceAbsent(s, "&quot;", "\"");
    ReplaceAbsent(s, "&apos;", "'");
    ReplaceAbsent(s, "&#039;", "'");
    ReplaceAbsent(s, "&amp;", "&");
  }

  // ---------------------------------------------------------------------------
  // Length limits
  // ---------------------------------------------------------------------------

  /** The gateway's byte limit for a field, None for a field without one. */
  function MaxLength(key: string): Option<nat>
  {
    if key == "OrderDescription" then Some(256)
    else if key == "CustomerName" then Some(100)
    else if key == "CardName" then Some(100)
    else if key == "Address1" then Some(100)
    else if key == "Address2" then Some(50)
    else if key == "Address3" then Some(50)
    else if key == "Address4" then Some(50)
    else if key == "City" then Some(50)
    else if key == "State" then Some(50)
    else if key == "PostCode" then Some(50)
    else if key == "EmailAddress" then Some(100)
    else if key == "PhoneNumber" then Some(30)
    else None
  }

  function Restrict(key: string, value: string): string
  {
    match MaxLength(key)
    case Some(n) => Truncate(value, n)
    case None => value
  }

  /** The array `apply_length_restrictions` is proved to return. */
  function LengthRestricted(data: Assoc<string, string>): (r: Assoc<string, string>)
    ensures |r| == |data|
    ensures forall i :: 0 <= i < |data| ==> r[i] == (data[i].0, Restrict(data[i].0, data[i].1))
  {
    if data == [] then [] else [(data[0].0, Restrict(data[0].0, data[0].1))] + LengthRestricted(data[1..])
  }

  /** `apply_length_restrictions($data)`: `$result[$key] = ...` for each entry, in order. */
  method ApplyLengthRestrictions(data: Assoc<string, string>) returns (r: Assoc<string, string>)
    requires UniqueKeys(data)
    ensures r == LengthRestricted(data)
  {
    r := [];
    var i := 0;
    while i < |data|
      invariant 0 <= i <= |data|
      invariant r == LengthRestricted(data[..i])
    {
      var key := data[i].0;
      var value := Restrict(key, data[i].1);
      FreshKey(data, i);
      r := Put(r, key, value);
      LengthRestrictedSnoc(data, i);
      i := i + 1;
    }
    assert data[..|data|] == data;
  }

  lemma FreshKey(data: Assoc<string, string>, i: nat)
    requires UniqueKeys(data) && i < |data|
    ensures !HasKey(LengthRestricted(data[..i]), data[i].0)
  {
    var r := LengthRestricted(data[..i]);
    forall j | 0 <= j < |r| ensures r[j].0 != data[i].0 {
      assert r[j].0 == data[j].0;
    }
  }

  lemma LengthRestrictedSnoc(data: Assoc<string, string>, i: nat)
    requires i < |data|
    ensures LengthRestricted(data[..i + 1]) == LengthRestricted(data[..i]) + [(data[i].0, Restrict(data[i].0, data[i].1))]
  {
    var a := LengthRestricted(data[..i + 1]);
    var b := LengthRestricted(data[..i]) + [(data[i].0, Restrict(data[i].0, data[i].1))];
    assert |a| == |b|;
    forall j | 0 <= j < |a| ensures a[j] == b[j] {
      assert data[..i + 1][j] == data[j];
    }
  }

  /**
   * The restriction keeps every key in its place, cuts each listed field
   * that is longer than its limit to exactly its first limit bytes, leaves a
   * listed field within its limit as it is, and passes every other field
   * through.
   */
  lemma LengthRestrictedMeaning(data: Assoc<string, string>)
    ensures Keys(LengthRestricted(data)) == Keys(data)
    ensures forall i :: 0 <= i < |data| && MaxLength(data[i].0).Some? ==>
      |LengthRestricted(data)[i].1| <= MaxLength(data[i].0).value &&
      LengthRestricted(data)[i].1 <= data[i].1
    ensures forall i :: 0 <= i < |data| && MaxLength(data[i].0).Some? && |data[i].1| > MaxLength(data[i].0).value ==>
      LengthRestricted(data)[i].1 == data[i].1[..MaxLength(data[i].0).value]
    ensures forall i :: 0 <= i < |data| && MaxLength(data[i].0).Some? && |data[i].1| <= MaxLength(data[i].0).value ==>
      LengthRestricted(data)[i].1 == data[i].1
    ensures forall i :: 0 <= i < |data| && MaxLength(data[i].0).None? ==>
      LengthRestricted(data)[i].1 == data[i].1
  {
  }

  /** The direct sale's 'Postcode' key is not the listed 'PostCode', so it is never cut. */
  lemma PostcodeNotLimited()
    ensures MaxLength("Postcode").None? && MaxLength("PostCode") == Some(50)
  {
  }

  /** `array_map`: a null value becomes '', every other value is filtered. */
  function FilterFields(fields: Assoc<string, Option<string>>, replaceAmpersand: bool): (r: Assoc<string, string>)
    ensures |r| == |fields| && Keys(r) == Keys(fields)
    ensures forall i :: 0 <= i < |fields| ==>
      r[i].1 == (if fields[i].1.None? then "" else FilterUnsupportedChars(fields[i].1.value, replaceAmpersand))
  {
    if fields == [] then []
    else
      var v := if fields[0].1.None? then "" else FilterUnsupportedChars(fields[0].1.value, replaceAmpersand);
      [(fields[0].0, v)] + FilterFields(fields[1..], replaceAmpersand)
  }
}
