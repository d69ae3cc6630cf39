/** The GS1 element-string walker and the validators built on it. */
module Gs1 {
  import opened Prelude

  const FNC1: char := '\U{1D}'

  // ---- Application identifiers ----------------------------------------------------------

  /** The value patterns of the schema; printable means the characters 0x21 to 0x7e. */
  datatype Format =
    | Digits(count: nat)
    | UpToDigits(max: nat)
    | UpToPrintable(max: nat)
    | Weight

  /** fixedLength is zero for a variable-length value. */
  datatype AiSpec = AiSpec(fixedLength: nat, format: Format)

  const SCHEMA: map<string, AiSpec> := map[
    "00" := AiSpec(18, Digits(18)),
    "01" := AiSpec(14, Digits(14)),
    "02" := AiSpec(14, Digits(14)),
    "10" := AiSpec(0, UpToPrintable(20)),
    "11" := AiSpec(6, Digits(6)),
    "12" := AiSpec(6, Digits(6)),
    "13" := AiSpec(6, Digits(6)),
    "15" := AiSpec(6, Digits(6)),
    "16" := AiSpec(6, Digits(6)),
    "17" := AiSpec(6, Digits(6)),
    "20" := AiSpec(2, Digits(2)),
    "21" := AiSpec(0, UpToPrintable(20)),
    "22" := AiSpec(0, UpToPrintable(20)),
    "30" := AiSpec(0, UpToDigits(8)),
    "37" := AiSpec(0, UpToDigits(8)),
    "240" := AiSpec(0, UpToPrintable(30)),
    "241" := AiSpec(0, UpToPrintable(30)),
    "250" := AiSpec(0, UpToPrintable(30)),
    "251" := AiSpec(0, UpToPrintable(30)),
    "310" := AiSpec(7, Weight),
    "320" := AiSpec(7, Weight),
    "8200" := AiSpec(0, UpToPrintable(70)),
    "8201" := AiSpec(0, UpToPrintable(70)),
    "8202" := AiSpec(0, UpToPrintable(70))]

  /** The keys by their digits. */
  predicate KnownAi(s: string) {
    if |s| == 2 then
      || (s[0] == '0' && s[1] in {'0', '1', '2'})
      || (s[0] == '1' && s[1] in {'0', '1', '2', '3', '5', '6', '7'})
      || (s[0] == '2' && s[1] in {'0', '1', '2'})
      || (s[0] == '3' && s[1] in {'0', '7'})
    else if |s| == 3 then
      || (s[0] == '2' && s[1] in {'4', '5'} && s[2] in {'0', '1'})
      || (s[0] == '3' && s[1] in {'1', '2'} && s[2] == '0')
    else
      |s| == 4 && s[0] == '8' && s[1] == '2' && s[2] == '0' && s[3] in {'0', '1', '2'}
  }

  lemma SchemaKeys(s: string)
    ensures s in SCHEMA <==> KnownAi(s)
  {
    if |s| == 2 {
      assert s == [s[0], s[1]];
    } else if |s| == 3 {
      assert s == [s[0], s[1], s[2]];
    } else if |s| == 4 {
      assert s == [s[0], s[1], s[2], s[3]];
    }
  }

  /** No identifier begins another, so the order in which lengths are tried cannot matter. */
  lemma PrefixFree(a: string, b: string)
    requires a in SCHEMA && b in SCHEMA && a <= b
    ensures a == b
  {
    SchemaKeys(a);
    SchemaKeys(b);
    assert forall k :: 0 <= k < |a| ==> b[k] == a[k];
  }

  // ---- Value patterns -------------------------------------------------------------------

  /** The characters a regular-expression digit class accepts: the ASCII digits, perhaps other decimal
      digits, never the separator. */
  ghost predicate DigitClass(digit: char -> bool) {
    (forall c :: '0' <= c <= '9' ==> digit(c)) && !digit(FNC1)
  }

  predicate AllDigits(digit: char -> bool, s: string) {
    forall k :: 0 <= k < |s| ==> digit(s[k])
  }

  /** A full match of the identifier's pattern. */
  predicate Matches(digit: char -> bool, f: Format, v: string) {
    match f
    case Digits(n) => |v| == n && AllDigits(digit, v)
    case UpToDigits(n) => 1 <= |v| <= n && AllDigits(digit, v)
    case UpToPrintable(n) => 1 <= |v| <= n && forall k :: 0 <= k < |v| ==> '\U{21}' <= v[k] <= '\U{7E}'
    case Weight => |v| == 7 && '0' <= v[0] <= '5' && AllDigits(digit, v[1..])
  }

  /** In the schema a fixed length is the length its pattern matches, and a variable-length pattern never
      matches a separator. */
  lemma SchemaIsConsistent(digit: char -> bool, ai: string, v: string)
    requires DigitClass(digit) && ai in SCHEMA && Matches(digit, SCHEMA[ai].format, v)
    ensures SCHEMA[ai].fixedLength > 0 ==> |v| == SCHEMA[ai].fixedLength
    ensures SCHEMA[ai].fixedLength == 0 ==> FNC1 !in v
  {
    var spec := SCHEMA[ai];
    FormatsOfSchema(ai);
    if spec.fixedLength == 0 {
      forall k | 0 <= k < |v| ensures v[k] != FNC1 {}
    }
  }

  lemma FormatsOfSchema(ai: string)
    requires ai in SCHEMA
    ensures var spec := SCHEMA[ai];
            if spec.fixedLength == 0 then spec.format.UpToDigits? || spec.format.UpToPrintable?
            else (spec.format.Digits? && spec.format.count == spec.fixedLength) || (spec.format.Weight? && spec.fixedLength == 7)
  {
    SchemaKeys(ai);
  }

  // ---- Walking --------------------------------------------------------------------------

  datatype Issue = UnknownAi | FormatViolation

  datatype Triple = Triple(ai: string, value: string, issue: Option<Issue>)

  /** Python slices, clipped at the end of the string. */
  function Take(s: string, n: nat): string {
    if n <= |s| then s[..n] else s
  }

  function Drop(s: string, n: nat): string {
    if n <= |s| then s[n..] else []
  }

  function Find(s: string, c: char): (i: Option<nat>)
    ensures i.None? <==> c !in s
    ensures i.Some? ==> i.value < |s| && s[i.value] == c && c !in s[..i.value]
  {
    if s == [] then None
    else if s[0] == c then Some(0)
    else
      var i := Find(s[1..], c);
      if i.None? then None
      else
        assert s[..i.value + 1] == [s[0]] + s[1..][..i.value];
        Some(i.value + 1)
  }

  function Strip(payload: string): string {
    if "]C1" <= payload || "]Q3" <= payload || "]e0" <= payload then payload[3..]
    else if [FNC1] <= payload then payload[1..]
    else payload
  }

  /** The length slice, of 4, 3 and 2, that first gives an identifier. */
  function AiLength(s: string): (n: Option<nat>)
    ensures n.Some? ==> 2 <= n.value <= 4 && Take(s, n.value) in SCHEMA
  {
    if Take(s, 4) in SCHEMA then Some(4)
    else if Take(s, 3) in SCHEMA then Some(3)
    else if Take(s, 2) in SCHEMA then Some(2)
    else None
  }

  /** The value that follows an identifier, and what is left after it. */
  function Value(spec: AiSpec, s: string): (string, string) {
    if spec.fixedLength > 0 then (Take(s, spec.fixedLength), Drop(s, spec.fixedLength))
    else
      var sep := Find(s, FNC1);
      if sep.None? then (s, []) else (s[..sep.value], s[sep.value + 1..])
  }

  function Judge(digit: char -> bool, ai: string, v: string): Triple
    requires ai in SCHEMA
  {
    Triple(ai, v, if Matches(digit, SCHEMA[ai].format, v) then None else Some(FormatViolation))
  }

  function Elements(digit: char -> bool, s: string): seq<Triple>
    decreases |s|
  {
    if s == [] then []
    else
      var n := AiLength(s);
      if n.None? then [Triple("?", s, Some(UnknownAi))]
      else
        var ai := Take(s, n.value);
        var (v, rest) := Value(SCHEMA[ai], Drop(s, n.value));
        [Judge(digit, ai, v)] + Elements(digit, rest)
  }

  lemma DropDrop(s: string, m: nat, n: nat)
    ensures Drop(Drop(s, m), n) == Drop(s, m + n)
  {
  }

  /** Reads a value at a position and moves past it, and past its separator. */
  method ReadValue(p: string, pos: nat, spec: AiSpec) returns (value: string, next: nat)
    ensures (value, Drop(p, next)) == Value(spec, Drop(p, pos))
    ensures pos <= next || next == |p|
  {
    if spec.fixedLength > 0 {
      DropDrop(p, pos, spec.fixedLength);
      return Take(Drop(p, pos), spec.fixedLength), pos + spec.fixedLength;
    }
    var sep := Find(Drop(p, pos), FNC1);
    if sep.None? {
      assert Drop(p, |p|) == [];
      return Drop(p, pos), |p|;
    }
    DropDrop(p, pos, sep.value + 1);
    return Take(Drop(p, pos), sep.value), pos + sep.value + 1;
  }

  lemma ElementsStep(digit: char -> bool, s: string, n: nat, ai: string, v: string, rest: string)
    requires s != [] && AiLength(s) == Some(n) && ai == Take(s, n) && (v, rest) == Value(SCHEMA[ai], Drop(s, n))
    ensures Elements(digit, s) == [Judge(digit, ai, v)] + Elements(digit, rest)
  {
    hide Judge, Take, Drop, AiLength, Value;
  }

  lemma Accumulate(out: seq<Triple>, t: Triple, rest: seq<Triple>)
    ensures out + ([t] + rest) == (out + [t]) + rest
  {
  }

  method Walk(digit: char -> bool, payload: string) returns (out: seq<Triple>)
    ensures out == Elements(digit, Strip(payload))
  {
    hide Judge, AiLength, Value, Strip, Take;
    var p := Strip(payload);
    out := [];
    var pos := 0;
    while pos < |p|
      invariant Elements(digit, p) == out + Elements(digit, Drop(p, pos))
      decreases |p| - pos
    {
      var length := AiLength(Drop(p, pos));
      if length.None? {
        return out + [Triple("?", Drop(p, pos), Some(UnknownAi))];
      }
      var ai := Take(Drop(p, pos), length.value);
      var value, next := ReadValue(p, pos + length.value, SCHEMA[ai]);
      DropDrop(p, pos, length.value);
      ElementsStep(digit, Drop(p, pos), length.value, ai, value, Drop(p, next));
      Accumulate(out, Judge(digit, ai, value), Elements(digit, Drop(p, next)));
      pos := next;
      out := out + [Judge(digit, ai, value)];
    }
  }

  // ---- Printing and the round trip ------------------------------------------------------

  datatype Element = Element(ai: string, value: string)

  predicate Valid(digit: char -> bool, e: Element) {
    e.ai in SCHEMA && Matches(digit, SCHEMA[e.ai].format, e.value)
  }

  ghost predicate AllValid(digit: char -> bool, es: seq<Element>) {
    forall e :: e in es ==> Valid(digit, e)
  }

  predicate Variable(ai: string) {
    ai in SCHEMA && SCHEMA[ai].fixedLength == 0
  }

  /** Identifiers and values end to end, a separator after each variable-length value but the last. */
  function Print(es: seq<Element>): string {
    if es == [] then []
    else es[0].ai + es[0].value + (if Variable(es[0].ai) && |es| > 1 then [FNC1] else []) + Print(es[1..])
  }

  /** An optional separator is allowed after a last value of variable length. */
  predicate MayTrail(es: seq<Element>) {
    es != [] && Variable(es[|es| - 1].ai)
  }

  datatype Marker = NoMarker | MarkerC1 | MarkerQ3 | MarkerE0 | MarkerFnc1

  function MarkerText(m: Marker): string {
    match m
    case NoMarker => ""
    case MarkerC1 => "]C1"
    case MarkerQ3 => "]Q3"
    case MarkerE0 => "]e0"
    case MarkerFnc1 => [FNC1]
  }

  function Clean(es: seq<Element>): seq<Triple> {
    seq(|es|, i requires 0 <= i < |es| => Triple(es[i].ai, es[i].value, None))
  }

  /** The identifier at the front of a string is found whatever follows it. */
  lemma AiIsFound(ai: string, rest: string)
    requires ai in SCHEMA
    ensures var s, n := ai + rest, AiLength(ai + rest);
            n.Some? && Take(s, n.value) == ai && Drop(s, n.value) == rest
  {
    var s := ai + rest;
    SchemaKeys(ai);
    assert Take(s, |ai|) == ai;
    forall k: nat | 2 <= k <= 4 && Take(s, k) in SCHEMA ensures Take(s, k) == ai && Drop(s, k) == rest {
      var t := Take(s, k);
      if |t| <= |ai| {
        assert t <= ai;
        PrefixFree(t, ai);
      } else {
        assert ai <= t;
        PrefixFree(ai, t);
      }
    }
  }

  lemma ValueIsFound(digit: char -> bool, e: Element, rest: string)
    requires DigitClass(digit) && Valid(digit, e)
    ensures !Variable(e.ai) ==> Value(SCHEMA[e.ai], e.value + rest) == (e.value, rest)
    ensures Variable(e.ai) ==> Value(SCHEMA[e.ai], e.value + [FNC1] + rest) == (e.value, rest)
    ensures Variable(e.ai) ==> Value(SCHEMA[e.ai], e.value) == (e.value, [])
  {
    SchemaIsConsistent(digit, e.ai, e.value);
    if Variable(e.ai) {
      var s := e.value + [FNC1] + rest;
      assert s[..|e.value|] == e.value && s[|e.value| + 1..] == rest;
      FindFirst(s, FNC1, |e.value|);
    } else {
      assert Take(e.value + rest, |e.value|) == e.value && Drop(e.value + rest, |e.value|) == rest;
    }
  }

  lemma {:induction false} FindFirst(s: string, c: char, n: nat)
    requires n < |s| && s[n] == c && c !in s[..n]
    ensures Find(s, c) == Some(n)
  {
    if n > 0 {
      assert s[0] == s[..n][0];
      assert s[..n][1..] == s[1..][..n - 1];
      FindFirst(s[1..], c, n - 1);
    }
  }

  function Ending(trail: bool): string {
    if trail then [FNC1] else []
  }

  /** Regrouping of concatenated pieces. */
  lemma Regroup(a: string, b: string, c: string, d: string, e: string)
    ensures a + b + c + d + e == a + (b + c + (d + e))
  {
  }

  lemma {:induction false} PrintedElements(digit: char -> bool, es: seq<Element>, trail: bool)
    requires DigitClass(digit) && AllValid(digit, es) && (trail ==> MayTrail(es))
    ensures Elements(digit, Print(es) + Ending(trail)) == Clean(es)
  {
    hide Valid, Value;
    if es != [] {
      var e := es[0];
      var separated := |es| > 1 || trail;
      assert e in es;
      CleanCons(es);
      if |es| > 1 {
        assert es[1..][|es| - 2] == es[|es| - 1];
        forall x | x in es[1..] ensures x in es {}
        PrintedElements(digit, es[1..], trail);
        FirstElement(digit, e, Print(es[1..]) + Ending(trail), true);
        Regroup(e.ai, e.value, Ending(Variable(e.ai)), Print(es[1..]), Ending(trail));
      } else {
        FirstElement(digit, e, [], trail);
        Regroup(e.ai, e.value, [], [], Ending(trail));
        assert e.value + [] + ([] + Ending(trail)) == e.value + Ending(trail) + [];
        assert Elements(digit, []) == [] && Clean(es[1..]) == [];
      }
    }
  }

  lemma CleanCons(es: seq<Element>)
    requires es != []
    ensures Clean(es) == [Triple(es[0].ai, es[0].value, None)] + Clean(es[1..])
  {
  }

  /** Walking one printed element, with or without its separator, and then the rest. */
  lemma FirstElement(digit: char -> bool, e: Element, rest: string, separated: bool)
    requires DigitClass(digit) && Valid(digit, e)
    requires Variable(e.ai) && !separated ==> rest == []
    ensures Elements(digit, e.ai + (e.value + Ending(Variable(e.ai) && separated) + rest))
         == [Triple(e.ai, e.value, None)] + Elements(digit, rest)
  {
    hide Matches, Value;
    var after := e.value + Ending(Variable(e.ai) && separated) + rest;
    AiIsFound(e.ai, after);
    ValueIsFound(digit, e, rest);
    assert e.value + [] + rest == e.value + rest;
    assert e.value + [] + [] == e.value;
    SchemaKeys(e.ai);
  }

  lemma StripMarker(m: Marker, s: string)
    requires m.NoMarker? ==> s == [] || '0' <= s[0] <= '9'
    ensures Strip(MarkerText(m) + s) == s
  {
    var p := MarkerText(m) + s;
    match m
    case NoMarker => assert p == s;
    case MarkerFnc1 => assert p[0] == FNC1 && p[1..] == s;
    case _ =>
      assert p[..3] == MarkerText(m) && p[3..] == s;
  }

  /** Round trip: walking what the printer writes, behind any marker or none, gives back exactly the elements,
      with no issues. */
  lemma RoundTrip(digit: char -> bool, es: seq<Element>, m: Marker, trail: bool)
    requires DigitClass(digit) && AllValid(digit, es) && (trail ==> MayTrail(es))
    ensures Elements(digit, Strip(MarkerText(m) + (Print(es) + Ending(trail)))) == Clean(es)
  {
    hide Strip, MarkerText, Elements;
    StartsWithDigit(digit, es, Ending(trail));
    StripMarker(m, Print(es) + Ending(trail));
    PrintedElements(digit, es, trail);
  }

  lemma StartsWithDigit(digit: char -> bool, es: seq<Element>, tail: string)
    requires AllValid(digit, es) && (es == [] ==> tail == [])
    ensures var s := Print(es) + tail; s == [] || '0' <= s[0] <= '9'
  {
    if es != [] {
      assert es[0] in es;
      SchemaKeys(es[0].ai);
      assert Print(es)[0] == es[0].ai[0];
    }
  }

  // ---- Losslessness ---------------------------------------------------------------------

  /** The text a walk accounts for: identifiers, values and the separators consumed between elements. */
  function Rebuild(ts: seq<Triple>): string {
    if ts == [] then []
    else if ts[0].ai == "?" then ts[0].value + Rebuild(ts[1..])
    else ts[0].ai + ts[0].value + (if Variable(ts[0].ai) && |ts| > 1 then [FNC1] else []) + Rebuild(ts[1..])
  }

  predicate EndsVariable(ts: seq<Triple>) {
    ts != [] && Variable(ts[|ts| - 1].ai)
  }

  lemma TakeDrop(s: string, n: nat)
    ensures Take(s, n) + Drop(s, n) == s
  {
  }

  lemma ValueAccounts(spec: AiSpec, s: string)
    ensures var (v, rest) := Value(spec, s);
            if spec.fixedLength > 0 then s == v + rest
            else if Find(s, FNC1).Some? then s == v + [FNC1] + rest
            else s == v && rest == []
  {
    if spec.fixedLength > 0 {
      TakeDrop(s, spec.fixedLength);
    }
  }

  /** Every character of any payload is accounted for, but for at most one trailing separator after a last
      value of variable length. */
  lemma {:induction false} WalkIsLossless(digit: char -> bool, s: string)
    ensures var ts := Elements(digit, s);
            && (ts == [] <==> s == [])
            && (s == Rebuild(ts) || (s == Rebuild(ts) + [FNC1] && EndsVariable(ts)))
    decreases |s|
  {
    if s != [] && AiLength(s).Some? {
      var n := AiLength(s).value;
      var ai := Take(s, n);
      var after := Drop(s, n);
      var (v, rest) := Value(SCHEMA[ai], after);
      var ts := Elements(digit, s);
      SchemaKeys(ai);
      assert ai != "?";
      TakeDrop(s, n);
      ValueAccounts(SCHEMA[ai], after);
      WalkIsLossless(digit, rest);
      var tail := Elements(digit, rest);
      assert ts[0].ai == ai && ts[0].value == v && ts[1..] == tail;
      RebuildStep(ts, ai, v, rest, after);
    } else if s != [] {
      assert Elements(digit, s)[1..] == [];
    }
  }

  lemma RebuildStep(ts: seq<Triple>, ai: string, v: string, rest: string, after: string)
    requires ts != [] && ai in SCHEMA && ts[0].ai == ai && ai != "?" && ts[0].value == v
    requires ts[1..] == [] <==> rest == []
    requires rest == Rebuild(ts[1..]) || (rest == Rebuild(ts[1..]) + [FNC1] && EndsVariable(ts[1..]))
    requires if !Variable(ai) then after == v + rest else after == v + [FNC1] + rest || (after == v && rest == [])
    ensures ai + after == Rebuild(ts) || (ai + after == Rebuild(ts) + [FNC1] && EndsVariable(ts))
  {
    if ts[1..] == [] {
      LastStep(ts, ai, v, after);
    } else {
      assert ts[1..][|ts| - 2] == ts[|ts| - 1];
      InnerStep(ts, ai, v, rest, after);
    }
  }

  lemma LastStep(ts: seq<Triple>, ai: string, v: string, after: string)
    requires |ts| == 1 && ts[0].ai == ai && ai != "?" && ts[0].value == v
    requires after == v || after == v + [] || (Variable(ai) && after == v + [FNC1] + [])
    ensures ai + after == Rebuild(ts) || (ai + after == Rebuild(ts) + [FNC1] && EndsVariable(ts))
  {
    assert Rebuild(ts[1..]) == [];
    Regroup(ai, v, [], [], []);
    Regroup(ai, v, [], [], [FNC1]);
    assert v + [] + ([] + []) == v && v + [] + ([] + [FNC1]) == v + [FNC1] + [];
    assert Rebuild(ts) == ai + v + [] + [] + [];
  }

  lemma InnerStep(ts: seq<Triple>, ai: string, v: string, rest: string, after: string)
    requires |ts| > 1 && ai in SCHEMA && ts[0].ai == ai && ai != "?" && ts[0].value == v
    requires rest == Rebuild(ts[1..]) || (rest == Rebuild(ts[1..]) + [FNC1] && EndsVariable(ts))
    requires if !Variable(ai) then after == v + rest else after == v + [FNC1] + rest
    ensures ai + after == Rebuild(ts) || (ai + after == Rebuild(ts) + [FNC1] && EndsVariable(ts))
  {
    var more := Rebuild(ts[1..]);
    var sep := Ending(Variable(ai));
    assert v + [] == v;
    assert after == v + sep + rest;
    var end := if rest == more then [] else [FNC1];
    assert rest == more + end;
    Regroup(ai, v, sep, more, end);
    assert Rebuild(ts) == ai + v + sep + more;
    assert Rebuild(ts) + [] == Rebuild(ts);
  }

  function Pairs(ts: seq<Triple>): seq<Element> {
    seq(|ts|, i requires 0 <= i < |ts| => Element(ts[i].ai, ts[i].value))
  }

  ghost predicate NoIssues(ts: seq<Triple>) {
    forall t :: t in ts ==> t.issue.None?
  }

  lemma {:induction false} CleanWalkIsValid(digit: char -> bool, s: string)
    requires NoIssues(Elements(digit, s))
    ensures AllValid(digit, Pairs(Elements(digit, s)))
    decreases |s|
  {
    hide Matches;
    var ts := Elements(digit, s);
    if s != [] {
      assert ts[0] in ts;
      var n := AiLength(s).value;
      var rest := Value(SCHEMA[Take(s, n)], Drop(s, n)).1;
      CleanTail(ts);
      assert ts[1..] == Elements(digit, rest);
      CleanWalkIsValid(digit, rest);
      PairsCons(digit, ts);
    }
  }

  lemma CleanTail(ts: seq<Triple>)
    requires ts != [] && NoIssues(ts)
    ensures NoIssues(ts[1..])
  {
    forall t | t in ts[1..] ensures t.issue.None? {
      assert t in ts;
    }
  }

  lemma PairsCons(digit: char -> bool, ts: seq<Triple>)
    requires ts != [] && Valid(digit, Element(ts[0].ai, ts[0].value)) && AllValid(digit, Pairs(ts[1..]))
    ensures AllValid(digit, Pairs(ts))
  {
    assert Pairs(ts) == [Element(ts[0].ai, ts[0].value)] + Pairs(ts[1..]);
  }

  lemma {:induction false} RebuildIsPrint(ts: seq<Triple>)
    requires forall t :: t in ts ==> t.ai != "?"
    ensures Rebuild(ts) == Print(Pairs(ts))
  {
    if ts != [] {
      assert ts[0] in ts;
      forall t | t in ts[1..] ensures t.ai != "?" {
        assert t in ts;
      }
      RebuildIsPrint(ts[1..]);
      assert Pairs(ts)[1..] == Pairs(ts[1..]);
    }
  }

  /** A string of well-formed elements, with or without the optional last separator. */
  ghost predicate WellFormed(digit: char -> bool, s: string) {
    exists es, trail :: IsPrinted(digit, s, es, trail)
  }

  ghost predicate IsPrinted(digit: char -> bool, s: string, es: seq<Element>, trail: bool) {
    AllValid(digit, es) && (trail ==> MayTrail(es)) && s == Print(es) + Ending(trail)
  }

  /** The walker raises no issue exactly on the strings the printer can write. */
  lemma NoIssuesIffWellFormed(digit: char -> bool, s: string)
    requires DigitClass(digit)
    ensures NoIssues(Elements(digit, s)) <==> WellFormed(digit, s)
  {
    hide Elements, NoIssues;
    if NoIssues(Elements(digit, s)) {
      CleanWalkIsPrinted(digit, s);
    }
    if WellFormed(digit, s) {
      var es, trail :| IsPrinted(digit, s, es, trail);
      PrintedElements(digit, es, trail);
      CleanHasNoIssues(es);
    }
  }

  lemma CleanHasNoIssues(es: seq<Element>)
    ensures NoIssues(Clean(es))
  {
  }

  lemma CleanWalkIsPrinted(digit: char -> bool, s: string)
    requires DigitClass(digit) && NoIssues(Elements(digit, s))
    ensures var es := Pairs(Elements(digit, s)); IsPrinted(digit, s, es, false) || IsPrinted(digit, s, es, true)
  {
    hide Elements, NoIssues, Matches, Rebuild, Print;
    var ts := Elements(digit, s);
    CleanWalkIsValid(digit, s);
    WalkIsLossless(digit, s);
    KnownAis(digit, ts);
    RebuildIsPrint(ts);
    var es := Pairs(ts);
    assert Print(es) + [] == Print(es);
    assert EndsVariable(ts) ==> MayTrail(es);
  }

  lemma KnownAis(digit: char -> bool, ts: seq<Triple>)
    requires AllValid(digit, Pairs(ts))
    ensures forall t :: t in ts ==> t.ai != "?"
  {
    forall t | t in ts ensures t.ai != "?" {
      var k :| 0 <= k < |ts| && ts[k] == t;
      assert Pairs(ts)[k] in Pairs(ts);
      SchemaKeys(t.ai);
    }
  }

  // ---- Validators -----------------------------------------------------------------------

  predicate LooksLikeGs1(payload: string) {
    "01" <= payload || FNC1 in payload || "]C1" <= payload
  }

  function Issues(ts: seq<Triple>): seq<Triple> {
    if ts == [] then []
    else (if ts[0].issue.Some? then [ts[0]] else []) + Issues(ts[1..])
  }

  /** The issues reported, or None for no finding. */
  function ValidateGs1(digit: char -> bool, payload: string): Option<seq<Triple>> {
    if payload == [] then None
    else if !LooksLikeGs1(payload) then None
    else
      var errors := Issues(Elements(digit, Strip(payload)));
      if errors == [] then None else Some(errors)
  }

  lemma {:induction false} IssuesEmptyIff(ts: seq<Triple>)
    ensures Issues(ts) == [] <==> NoIssues(ts)
  {
    if ts != [] {
      IssuesEmptyIff(ts[1..]);
      assert ts == [ts[0]] + ts[1..];
    }
  }

  /** A finding is raised exactly on payloads that pass the gate and are not a marker, if any, followed by
      well-formed elements. So a malformed payload behind ]Q3 or ]e0 with no separator in it is let through. */
  lemma Gs1FindingIff(digit: char -> bool, payload: string)
    requires DigitClass(digit)
    ensures ValidateGs1(digit, payload).Some? <==> LooksLikeGs1(payload) && !WellFormed(digit, Strip(payload))
  {
    NoIssuesIffWellFormed(digit, Strip(payload));
    IssuesEmptyIff(Elements(digit, Strip(payload)));
    if payload == [] {
      assert !LooksLikeGs1(payload);
    }
  }

  /** Behind ]Q3 or ]e0 a malformed element string is reported exactly when it holds a separator. */
  lemma MarkerLetsThroughIff(digit: char -> bool, m: Marker, s: string)
    requires DigitClass(digit) && (m.MarkerQ3? || m.MarkerE0?) && !WellFormed(digit, s)
    ensures ValidateGs1(digit, MarkerText(m) + s).Some? <==> FNC1 in s
  {
    var payload := MarkerText(m) + s;
    StripMarker(m, s);
    Gs1FindingIff(digit, payload);
    assert payload[0] == ']' && payload[1] != 'C';
    assert FNC1 in payload <==> FNC1 in s;
  }

  /** Behind ]C1 it always is. */
  lemma MarkerC1Reports(digit: char -> bool, s: string)
    requires DigitClass(digit) && !WellFormed(digit, s)
    ensures ValidateGs1(digit, MarkerText(MarkerC1) + s).Some?
  {
    hide WellFormed, ValidateGs1;
    StripMarker(MarkerC1, s);
    Gs1FindingIff(digit, MarkerText(MarkerC1) + s);
  }

  /** A GTIN of two digits is let through behind ]Q3 and reported behind ]C1. */
  lemma ShortGtinIsLetThrough(digit: char -> bool)
    requires DigitClass(digit)
    ensures ValidateGs1(digit, "]Q30112").None? && ValidateGs1(digit, "]C10112").Some?
  {
    hide WellFormed, ValidateGs1, Elements, DigitClass;
    ShortGtin(digit);
    NoIssuesIffWellFormed(digit, "0112");
    MarkerLetsThroughIff(digit, MarkerQ3, "0112");
    MarkerC1Reports(digit, "0112");
    assert "]Q3" + "0112" == "]Q30112" && "]C1" + "0112" == "]C10112";
  }

  lemma ShortGtin(digit: char -> bool)
    ensures Elements(digit, "0112") == [Triple("01", "12", Some(FormatViolation))]
  {
    var s := "0112";
    AiIsFound("01", "12");
    assert "01" + "12" == s;
    var n := AiLength(s).value;
    assert |Take(s, n)| == n == 2;
    assert Value(SCHEMA["01"], "12") == ("12", []);
    assert Elements(digit, []) == [];
    ElementsStep(digit, s, 2, "01", "12", []);
  }

  function SeenAis(ts: seq<Triple>): set<string> {
    set t | t in ts && t.ai != "?" :: t.ai
  }

  /** The issues of the UDI finding, or None. */
  function ValidateUdi(digit: char -> bool, payload: string): Option<seq<string>> {
    if payload == [] then None
    else
      var walked := Elements(digit, Strip(payload));
      if walked == [] then None
      else
        var seen := SeenAis(walked);
        if "01" !in seen then None
        else
          var required := if "01" !in seen then ["missing_required_ai_01"] else [];
          var present := (if "17" in seen then 1 else 0) + (if "10" in seen then 1 else 0) + (if "21" in seen then 1 else 0);
          var issues := required + (if present == 0 then ["missing_all_recommended_production_ais"] else []);
          if issues == [] then None else Some(issues)
  }

  /** The UDI finding appears exactly when AI 01 is seen and none of 17, 10 and 21 is, and then it always
      carries the one same issue: the missing-required one is never raised. */
  lemma UdiFindingIff(digit: char -> bool, payload: string)
    ensures var seen := SeenAis(Elements(digit, Strip(payload)));
            ValidateUdi(digit, payload) ==
              if "01" in seen && "17" !in seen && "10" !in seen && "21" !in seen
              then Some(["missing_all_recommended_production_ais"]) else None
  {
    hide Judge, AiLength, Value;
    if payload == [] {
      assert Strip(payload) == [];
    }
    assert SeenAis([]) == {};
    var none: seq<string> := [];
    var issue := ["missing_all_recommended_production_ais"];
    assert none + issue == issue && none + none == none;
  }

  /** For printed elements that is a statement about the identifiers printed. */
  lemma UdiOfPrinted(digit: char -> bool, es: seq<Element>, m: Marker)
    requires DigitClass(digit) && AllValid(digit, es)
    ensures var ais := set e | e in es :: e.ai;
            ValidateUdi(digit, MarkerText(m) + Print(es)).Some? <==>
              "01" in ais && "17" !in ais && "10" !in ais && "21" !in ais
  {
    var p := MarkerText(m) + Print(es);
    assert Print(es) + [] == Print(es);
    RoundTrip(digit, es, m, false);
    UdiFindingIff(digit, p);
    SeenOfClean(digit, es);
  }

  lemma SeenOfClean(digit: char -> bool, es: seq<Element>)
    requires AllValid(digit, es)
    ensures SeenAis(Clean(es)) == set e | e in es :: e.ai
  {
    var ts := Clean(es);
    forall e | e in es ensures e.ai in SeenAis(ts) {
      var k :| 0 <= k < |es| && es[k] == e;
      assert ts[k] in ts && ts[k].ai == e.ai;
      SchemaKeys(e.ai);
    }
    forall t | t in ts ensures exists e :: e in es && e.ai == t.ai {
      var k :| 0 <= k < |ts| && ts[k] == t;
      assert es[k] in es && es[k].ai == t.ai;
    }
  }
}
