/** The element strings of GS1 in plain digits: which identifiers there are, which texts are their values, and what the
    walker and the validator make of them, without the schema. */
module Gs1Values {
  import opened Prelude
  import opened Gs1

  predicate Printable(s: string) {
    forall k :: 0 <= k < |s| ==> '!' <= s[k] <= '~'
  }

  /** The identifiers whose values end with a separator or the text. */
  predicate EndsWithSeparator(ai: string) {
    ai in {"10", "21", "22", "30", "37", "240", "241", "250", "251", "8200", "8201", "8202"}
  }

  /** The values of each identifier; no text is a value of an identifier that is not listed. */
  predicate IsValue(digit: char -> bool, ai: string, v: string) {
    if ai == "00" then |v| == 18 && AllDigits(digit, v)
    else if ai in {"01", "02"} then |v| == 14 && AllDigits(digit, v)
    else if ai in {"11", "12", "13", "15", "16", "17"} then |v| == 6 && AllDigits(digit, v)
    else if ai == "20" then |v| == 2 && AllDigits(digit, v)
    else if ai in {"30", "37"} then 1 <= |v| <= 8 && AllDigits(digit, v)
    else if ai in {"10", "21", "22"} then 1 <= |v| <= 20 && Printable(v)
    else if ai in {"240", "241", "250", "251"} then 1 <= |v| <= 30 && Printable(v)
    else if ai in {"8200", "8201", "8202"} then 1 <= |v| <= 70 && Printable(v)
    else if ai in {"310", "320"} then |v| == 7 && AllDigits(digit, v[1..]) && '0' <= v[0] <= '5'
    else false
  }

  function SpecFor(ai: string): Option<AiSpec> {
    if ai in {"00"} then Some(AiSpec(18, Digits(18)))
    else if ai in {"01", "02"} then Some(AiSpec(14, Digits(14)))
    else if ai in {"11", "12", "13", "15", "16", "17"} then Some(AiSpec(6, Digits(6)))
    else if ai in {"20"} then Some(AiSpec(2, Digits(2)))
    else if ai in {"30", "37"} then Some(AiSpec(0, UpToDigits(8)))
    else if ai in {"10", "21", "22"} then Some(AiSpec(0, UpToPrintable(20)))
    else if ai in {"240", "241", "250", "251"} then Some(AiSpec(0, UpToPrintable(30)))
    else if ai in {"8200", "8201", "8202"} then Some(AiSpec(0, UpToPrintable(70)))
    else if ai in {"310", "320"} then Some(AiSpec(7, Weight))
    else None
  }

  lemma ShippingContainers(ai: string)
    requires ai in {"00"}
    ensures ai in SCHEMA && SCHEMA[ai] == AiSpec(18, Digits(18))
  {
  }

  lemma TradeItems(ai: string)
    requires ai in {"01", "02"}
    ensures ai in SCHEMA && SCHEMA[ai] == AiSpec(14, Digits(14))
  {
  }

  lemma Dates(ai: string)
    requires ai in {"11", "12", "13", "15", "16", "17"}
    ensures ai in SCHEMA && SCHEMA[ai] == AiSpec(6, Digits(6))
  {
  }

  lemma Variants(ai: string)
    requires ai in {"20"}
    ensures ai in SCHEMA && SCHEMA[ai] == AiSpec(2, Digits(2))
  {
  }

  lemma Counts(ai: string)
    requires ai in {"30", "37"}
    ensures ai in SCHEMA && SCHEMA[ai] == AiSpec(0, UpToDigits(8))
  {
  }

  lemma Serials(ai: string)
    requires ai in {"10", "21", "22"}
    ensures ai in SCHEMA && SCHEMA[ai] == AiSpec(0, UpToPrintable(20))
  {
  }

  lemma Parts(ai: string)
    requires ai in {"240", "241", "250", "251"}
    ensures ai in SCHEMA && SCHEMA[ai] == AiSpec(0, UpToPrintable(30))
  {
  }

  lemma Links(ai: string)
    requires ai in {"8200", "8201", "8202"}
    ensures ai in SCHEMA && SCHEMA[ai] == AiSpec(0, UpToPrintable(70))
  {
  }

  lemma Weights(ai: string)
    requires ai in {"310", "320"}
    ensures ai in SCHEMA && SCHEMA[ai] == AiSpec(7, Weight)
  {
  }

  lemma SchemaSpecs(ai: string)
    ensures SpecFor(ai) == if ai in SCHEMA then Some(SCHEMA[ai]) else None
  {
    if SpecFor(ai).None? {
      SchemaKeys(ai);
      ListedAreKnown(ai);
    } else if ai in {"00"} {
      ShippingContainers(ai);
    } else if ai in {"01", "02"} {
      TradeItems(ai);
    } else if ai in {"11", "12", "13", "15", "16", "17"} {
      Dates(ai);
    } else if ai in {"20"} {
      Variants(ai);
    } else if ai in {"30", "37"} {
      Counts(ai);
    } else if ai in {"10", "21", "22"} {
      Serials(ai);
    } else if ai in {"240", "241", "250", "251"} {
      Parts(ai);
    } else if ai in {"8200", "8201", "8202"} {
      Links(ai);
    } else if ai in {"310", "320"} {
      Weights(ai);
    }
  }

  lemma FormatValues(digit: char -> bool, ai: string, v: string)
    ensures IsValue(digit, ai, v) <==> SpecFor(ai).Some? && Matches(digit, SpecFor(ai).value.format, v)
  {
    hide AllDigits;
  }

  lemma ValidIsValue(digit: char -> bool, e: Element)
    ensures Valid(digit, e) <==> IsValue(digit, e.ai, e.value)
  {
    hide IsValue, Matches, SpecFor;
    SchemaSpecs(e.ai);
    FormatValues(digit, e.ai, e.value);
  }

  /** The identifiers by name and by their digits. */
  lemma ListedAreKnown(ai: string)
    ensures KnownAi(ai) <==> ai in {"00", "01", "02", "10", "11", "12", "13", "15", "16", "17", "20", "21", "22", "30",
      "37", "240", "241", "250", "251", "310", "320", "8200", "8201", "8202"}
  {
    if KnownAi(ai) {
      if |ai| == 2 {
        assert ai == [ai[0], ai[1]];
      } else if |ai| == 3 {
        assert ai == [ai[0], ai[1], ai[2]];
      } else {
        assert ai == [ai[0], ai[1], ai[2], ai[3]];
      }
    }
  }

  lemma SpecsBySeparator(ai: string)
    ensures SpecFor(ai).Some? && SpecFor(ai).value.fixedLength == 0 <==> EndsWithSeparator(ai)
  {
  }

  lemma VariableEndsWithSeparator(ai: string)
    ensures Variable(ai) <==> EndsWithSeparator(ai)
  {
    hide SpecFor, EndsWithSeparator;
    SchemaSpecs(ai);
    SpecsBySeparator(ai);
  }

  /** Identifiers and values end to end, a separator after each one that needs it but the last. */
  function Written(es: seq<Element>): string {
    if es == [] then ""
    else if |es| == 1 then es[0].ai + es[0].value
    else if EndsWithSeparator(es[0].ai) then es[0].ai + es[0].value + ['\U{1D}'] + Written(es[1..])
    else es[0].ai + es[0].value + Written(es[1..])
  }

  lemma {:induction false} WrittenIsPrint(es: seq<Element>)
    ensures Written(es) == Print(es)
  {
    hide Variable, EndsWithSeparator;
    if es != [] {
      VariableEndsWithSeparator(es[0].ai);
      WrittenIsPrint(es[1..]);
      assert es[0].ai + es[0].value + [] == es[0].ai + es[0].value;
      if |es| == 1 {
        assert es[1..] == [];
        assert es[0].ai + es[0].value + [] + [] == es[0].ai + es[0].value;
      }
    }
  }

  /** Some elements with proper values, written out, with or without a separator at the very end where one may be. */
  ghost predicate IsElementString(digit: char -> bool, s: string) {
    exists es: seq<Element>, trail: bool :: IsWritten(digit, s, es, trail)
  }

  ghost predicate IsWritten(digit: char -> bool, s: string, es: seq<Element>, trail: bool) {
    && (forall e :: e in es ==> IsValue(digit, e.ai, e.value))
    && (trail ==> es != [] && EndsWithSeparator(es[|es| - 1].ai))
    && s == Written(es) + (if trail then ['\U{1D}'] else [])
  }

  lemma WrittenIffPrinted(digit: char -> bool, s: string, es: seq<Element>, trail: bool)
    ensures IsWritten(digit, s, es, trail) <==> IsPrinted(digit, s, es, trail)
  {
    hide Valid, IsValue, Variable, EndsWithSeparator, Print, Written;
    WrittenIsPrint(es);
    forall e: Element ensures Valid(digit, e) <==> IsValue(digit, e.ai, e.value) {
      ValidIsValue(digit, e);
    }
    if es != [] {
      VariableEndsWithSeparator(es[|es| - 1].ai);
    }
  }

  lemma ElementStringIffWellFormed(digit: char -> bool, s: string)
    ensures IsElementString(digit, s) <==> WellFormed(digit, s)
  {
    hide IsWritten, IsPrinted;
    forall es, trail ensures IsWritten(digit, s, es, trail) <==> IsPrinted(digit, s, es, trail) {
      WrittenIffPrinted(digit, s, es, trail);
    }
  }

  /** The walker raises no issue exactly on element strings. */
  lemma CleanIffElementString(digit: char -> bool, s: string)
    requires DigitClass(digit)
    ensures NoIssues(Elements(digit, s)) <==> IsElementString(digit, s)
  {
    hide WellFormed, IsElementString, NoIssues, Elements;
    NoIssuesIffWellFormed(digit, s);
    ElementStringIffWellFormed(digit, s);
  }

  /** The text behind the marker, if it starts with one. */
  function BehindMarker(payload: string): string {
    if |payload| >= 3 && payload[..3] in {"]C1", "]Q3", "]e0"} then payload[3..]
    else if |payload| >= 1 && payload[0] == '\U{1D}' then payload[1..]
    else payload
  }

  lemma StripIsBehindMarker(payload: string)
    ensures Strip(payload) == BehindMarker(payload)
  {
    StartsWith("]C1", payload);
    StartsWith("]Q3", payload);
    StartsWith("]e0", payload);
    StartsWith([FNC1], payload);
  }

  lemma StartsWith(p: string, s: string)
    ensures p <= s <==> |s| >= |p| && s[..|p|] == p
    ensures |p| == 1 ==> (p <= s <==> |s| >= 1 && s[0] == p[0])
    ensures p <= s <==> s[..MinI(|p|, |s|)] == p
  {
  }

  /** The finding is raised exactly for payloads that start with 01 or ]C1 or hold a separator, and are no element string
      behind their marker. */
  lemma FindingIff(digit: char -> bool, payload: string)
    requires DigitClass(digit)
    ensures ValidateGs1(digit, payload).Some? <==>
      && (payload[..MinI(2, |payload|)] == "01" || payload[..MinI(3, |payload|)] == "]C1" || '\U{1D}' in payload)
      && !IsElementString(digit, BehindMarker(payload))
  {
    hide WellFormed, IsElementString, ValidateGs1, Strip, BehindMarker;
    Gs1FindingIff(digit, payload);
    StartsWith("01", payload);
    StartsWith("]C1", payload);
    StripIsBehindMarker(payload);
    ElementStringIffWellFormed(digit, BehindMarker(payload));
  }

  /** Walking what was written gives back the elements, behind any marker and with any permitted last separator. */
  lemma WrittenIsWalkedBack(digit: char -> bool, es: seq<Element>, m: Marker, trail: bool)
    requires DigitClass(digit) && forall e :: e in es ==> IsValue(digit, e.ai, e.value)
    requires trail ==> es != [] && EndsWithSeparator(es[|es| - 1].ai)
    ensures Elements(digit, BehindMarker(MarkerText(m) + (Written(es) + (if trail then ['\U{1D}'] else [])))) == Clean(es)
  {
    hide Valid, IsValue, Variable, EndsWithSeparator, Print, Written, Elements, Strip, BehindMarker;
    var s := Written(es) + (if trail then ['\U{1D}'] else []);
    WrittenIffPrinted(digit, s, es, trail);
    RoundTrip(digit, es, m, trail);
    StripIsBehindMarker(MarkerText(m) + s);
  }

  /** An expiry date behind ]C1 is not reported. */
  lemma ExpiryDateIsFine(digit: char -> bool)
    requires DigitClass(digit)
    ensures ValidateGs1(digit, "]C117140704").None?
  {
    hide ValidateGs1, BehindMarker;
    var e := Element("17", "140704");
    var s := "17140704";
    assert "17" + "140704" == s && s + [] == s;
    assert Written([e]) == s;
    assert IsWritten(digit, s, [e], false);
    MarkerIsDropped(s);
    assert "]C1" + s == "]C117140704";
    FindingIff(digit, "]C117140704");
  }

  lemma MarkerIsDropped(s: string)
    ensures BehindMarker("]C1" + s) == s
  {
    assert ("]C1" + s)[..3] == "]C1";
  }

  /** What a walk may say of what it read. */
  ghost predicate IsVerdict(digit: char -> bool, t: Triple) {
    match t.issue
    case None => IsValue(digit, t.ai, t.value)
    case Some(FormatViolation) => KnownAi(t.ai) && !IsValue(digit, t.ai, t.value)
    case Some(UnknownAi) => t.ai == "?" && forall k :: 0 <= k <= |t.value| ==> !KnownAi(t.value[..k])
  }

  /** No issue for a value, a format violation for another text behind a known identifier, and an unknown identifier for
      a text that starts with none. */
  lemma {:induction false} WalkVerdicts(digit: char -> bool, s: string)
    ensures forall t :: t in Elements(digit, s) ==> IsVerdict(digit, t)
    decreases |s|
  {
    hide Matches, IsValue, KnownAi, Take, Drop, Value;
    if s != [] {
      var n := AiLength(s);
      if n.None? {
        UnknownStart(s);
      } else {
        var ai := Take(s, n.value);
        var (v, rest) := Value(SCHEMA[ai], Drop(s, n.value));
        RestIsShorter(s, n.value);
        WalkVerdicts(digit, rest);
        SchemaKeys(ai);
        ValidIsValue(digit, Element(ai, v));
        ElementsStep(digit, s, n.value, ai, v, rest);
      }
    }
  }

  lemma RestIsShorter(s: string, n: nat)
    requires s != [] && AiLength(s) == Some(n)
    ensures |Value(SCHEMA[Take(s, n)], Drop(s, n)).1| < |s|
  {
    ValueAccounts(SCHEMA[Take(s, n)], Drop(s, n));
    TakeDrop(s, n);
  }

  lemma UnknownStart(s: string)
    requires AiLength(s).None?
    ensures forall k :: 0 <= k <= |s| ==> !KnownAi(s[..k])
  {
    SchemaKeys(Take(s, 2));
    SchemaKeys(Take(s, 3));
    SchemaKeys(Take(s, 4));
    forall k | 0 <= k <= |s| ensures !KnownAi(s[..k]) {
      if 2 <= k <= 4 {
        assert Take(s, k) == s[..k];
      }
    }
  }
}
