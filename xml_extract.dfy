/**
 * The tolerant extraction of values from the gateway's SOAP replies. The
 * plugin does not parse XML: it runs a case-insensitive, ungreedy regular
 * expression `#<E>(P)</E>#iU` over the reply text. Under those flags the match
 * is the leftmost opening tag (letters in any case) followed by the SHORTEST
 * non-empty run of content characters that is followed by the closing tag.
 * Without the `s` flag the content `.` never matches a line feed, so a value
 * cannot span lines.
 */
module XmlExtract {
  import opened PhpStrings

  /** The two content patterns the plugin uses: `[0-9]+` and `.+`. */
  datatype ContentClass = Digits | AnyLine

  predicate InClass(c: char, cls: ContentClass)
  {
    match cls
    case Digits => IsDigit(c)
    case AnyLine => c != '\n'
  }

  /** The literal `tag` occurs at position p, up to ASCII case. */
  predicate TagAt(s: string, p: nat, tag: string)
  {
    p + |tag| <= |s| && EqualsIgnoreCase(s[p..p + |tag|], tag)
  }

  /** The k characters from position `from` all belong to the class. */
  predicate ContentAt(s: string, from: nat, k: nat, cls: ContentClass)
  {
    from + k <= |s| && forall j :: from <= j < from + k ==> InClass(s[j], cls)
  }

  /** The pattern matches at p with a content of length k. */
  predicate MatchAt(s: string, open: string, close: string, cls: ContentClass, p: nat, k: nat)
  {
    k >= 1 && TagAt(s, p, open) && ContentAt(s, p + |open|, k, cls) && TagAt(s, p + |open| + k, close)
  }

  /** The shortest content length of at least k at position p (the ungreedy quantifier). */
  function ShortestFrom(s: string, open: string, close: string, cls: ContentClass, p: nat, k: nat): (r: Option<nat>)
    requires k >= 1 && TagAt(s, p, open) && ContentAt(s, p + |open|, k - 1, cls)
    ensures r.Some? ==> r.value >= k && MatchAt(s, open, close, cls, p, r.value)
    ensures r.Some? ==> forall k' :: k <= k' < r.value ==> !MatchAt(s, open, close, cls, p, k')
    ensures r.None? ==> forall k' :: k <= k' ==> !MatchAt(s, open, close, cls, p, k')
    decreases |s| - k
  {
    var from := p + |open|;
    if from + k > |s| then None
    else if !InClass(s[from + k - 1], cls) then None
    else if TagAt(s, from + k, close) then Some(k)
    else ShortestFrom(s, open, close, cls, p, k + 1)
  }

  /** The leftmost match at or after p, with its shortest content: (start, content length). */
  function FirstMatch(s: string, open: string, close: string, cls: ContentClass, p: nat): (r: Option<(nat, nat)>)
    requires p <= |s|
    ensures r.Some? ==> p <= r.value.0 && MatchAt(s, open, close, cls, r.value.0, r.value.1)
    ensures r.Some? ==> forall q, k :: p <= q < r.value.0 ==> !MatchAt(s, open, close, cls, q, k)
    ensures r.Some? ==> forall k: nat :: k < r.value.1 ==> !MatchAt(s, open, close, cls, r.value.0, k)
    ensures r.None? ==> forall q, k :: p <= q ==> !MatchAt(s, open, close, cls, q, k)
    decreases |s| - p
  {
    var here := if TagAt(s, p, open) then ShortestFrom(s, open, close, cls, p, 1) else None;
    match here
    case Some(k) => Some((p, k))
    case None =>
      if p == |s| then None
      else
        var r := FirstMatch(s, open, close, cls, p + 1);
        assert forall k :: !MatchAt(s, open, close, cls, p, k);
        r
  }

  /** The captured content of the leftmost, shortest match, if any. */
  function Capture(s: string, open: string, close: string, cls: ContentClass): (r: Option<string>)
    ensures r.Some? ==> |r.value| >= 1 && forall i :: 0 <= i < |r.value| ==> InClass(r.value[i], cls)
  {
    match FirstMatch(s, open, close, cls, 0)
    case Some(m) => Some(s[m.0 + |open|..m.0 + |open| + m.1])
    case None => None
  }

  function OpenTag(element: string): string
  {
    "<" + element + ">"
  }

  function CloseTag(element: string): string
  {
    "</" + element + ">"
  }

  /** `get_xml_value($element, $xml, $pattern)`: the element's content, or "<element> Not Found". */
  function GetXmlValue(element: string, xml: string, cls: ContentClass): (r: string)
    ensures Capture(xml, OpenTag(element), CloseTag(element), cls).Some? ==>
      r == Capture(xml, OpenTag(element), CloseTag(element), cls).value
    ensures Capture(xml, OpenTag(element), CloseTag(element), cls).None? ==> r == element + " Not Found"
  {
    match Capture(xml, OpenTag(element), CloseTag(element), cls)
    case Some(v) => v
    case None => element + " Not Found"
  }

  const CrossReferenceOpen := "<TransactionOutputData CrossReference=\""
  const CrossReferenceClose := "\">"

  /** `get_xml_cross_reference($xml)`: the CrossReference attribute, or "No Data Found". */
  function GetXmlCrossReference(xml: string): (r: string)
    ensures Capture(xml, CrossReferenceOpen, CrossReferenceClose, AnyLine).Some? ==>
      r == Capture(xml, CrossReferenceOpen, CrossReferenceClose, AnyLine).value
    ensures Capture(xml, CrossReferenceOpen, CrossReferenceClose, AnyLine).None? ==> r == "No Data Found"
  {
    match Capture(xml, CrossReferenceOpen, CrossReferenceClose, AnyLine)
    case Some(v) => v
    case None => "No Data Found"
  }

  /** The one-line `<PreviousTransactionResult>` block of a duplicate-transaction reply, if present. */
  function PreviousTransactionResult(xml: string): Option<string>
  {
    Capture(xml, OpenTag("PreviousTransactionResult"), CloseTag("PreviousTransactionResult"), AnyLine)
  }

  // ---------------------------------------------------------------------------
  // Properties
  // ---------------------------------------------------------------------------

  predicate Letter(c: char)
  {
    'a' <= c <= 'z' || 'A' <= c <= 'Z'
  }

  /** A string that starts with a letter is not a PHP numeric string. */
  lemma LetterStartNotNumeric(s: string)
    requires |s| > 0 && Letter(s[0])
    ensures !IsNumeric(s)
  {
    assert TrimLeading(s) == s;
    TrimTrailingKeepsFirst(s);
    TrimTrailingPrefix(s);
    var b := TrimTrailing(s);
    assert b[0] == s[0];
    assert LeadingDigits(b) == 0;
  }

  lemma {:induction false} TrimTrailingKeepsFirst(s: string)
    requires |s| > 0 && !IsNumericWhitespace(s[0])
    ensures |TrimTrailing(s)| > 0
    decreases |s|
  {
    if IsNumericWhitespace(s[|s| - 1]) {
      assert |s| > 1;
      TrimTrailingKeepsFirst(s[..|s| - 1]);
    }
  }

  /**
   * With the digits pattern the extracted status is numeric exactly when the
   * element was found: the "... Not Found" sentinel is never numeric. This is
   * what lets every caller use `is_numeric` as its "found" test.
   */
  lemma DigitsValueNumericIffFound(element: string, xml: string)
    requires |element| > 0 && Letter(element[0])
    ensures IsNumeric(GetXmlValue(element, xml, Digits)) <==>
      Capture(xml, OpenTag(element), CloseTag(element), Digits).Some?
  {
    match Capture(xml, OpenTag(element), CloseTag(element), Digits)
    case Some(v) =>
      DigitStringIsNumeric(v);
    case None =>
      LetterStartNotNumeric(element + " Not Found");
  }

  /** A digits value, when found, reads as the number its digits spell. */
  lemma DigitsValueNumber(element: string, xml: string)
    requires Capture(xml, OpenTag(element), CloseTag(element), Digits).Some?
    ensures var v := GetXmlValue(element, xml, Digits);
      AllDigits(v) && ParseNumber(v) == Some(Decimal(false, DigitsValue(v), 0))
  {
    DigitStringIsNumeric(GetXmlValue(element, xml, Digits));
  }

  lemma {:induction false} ShortestOfElement(s: string, open: string, v: string, close: string, cls: ContentClass, k: nat)
    requires |close| > 0 && close[0] == '<'
    requires |s| >= |open| + |v| + |close|
    requires s[|open|..|open| + |v|] == v && TagAt(s, |open| + |v|, close)
    requires forall i :: 0 <= i < |v| ==> InClass(v[i], cls) && v[i] != '<'
    requires 1 <= k <= |v| && TagAt(s, 0, open) && ContentAt(s, |open|, k - 1, cls)
    ensures ShortestFrom(s, open, close, cls, 0, k) == Some(|v|)
    decreases |v| - k
  {
    assert s[|open| + k - 1] == v[k - 1];
    if k < |v| {
      assert s[|open| + k] == v[k];
      assert s[|open| + k..|open| + k + |close|][0] == s[|open| + k];
      assert !TagAt(s, |open| + k, close);
      assert ContentAt(s, |open|, k, cls) by {
        forall j | |open| <= j < |open| + k ensures InClass(s[j], cls) {
          if j < |open| + k - 1 { } else { assert s[j] == v[k - 1]; }
        }
      }
      ShortestOfElement(s, open, v, close, cls, k + 1);
    }
  }

  /**
   * Extraction undoes rendering: a reply that starts with the element (its
   * tags in any letter case) around a value free of '<' yields that value.
   */
  lemma ExtractRendered(element: string, o: string, v: string, c: string, rest: string, cls: ContentClass)
    requires EqualsIgnoreCase(o, OpenTag(element)) && EqualsIgnoreCase(c, CloseTag(element))
    requires |v| >= 1 && forall i :: 0 <= i < |v| ==> InClass(v[i], cls) && v[i] != '<'
    ensures GetXmlValue(element, o + v + c + rest, cls) == v
  {
    var s := o + v + c + rest;
    var open := OpenTag(element);
    var close := CloseTag(element);
    assert s[..|o|] == o;
    assert s[|o|..|o| + |v|] == v;
    assert s[|o| + |v|..|o| + |v| + |c|] == c;
    assert TagAt(s, 0, open);
    assert TagAt(s, |open| + |v|, close);
    assert close[0] == '<';
    assert ContentAt(s, |open|, 0, cls);
    ShortestOfElement(s, open, v, close, cls, 1);
  }
}
