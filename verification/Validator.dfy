/** The CRON field recogniser of cron/validator.go, and the grammar and meaning it is proved against. */
module Validator {
  import opened Common
  import opened Text

  // ---------- the recogniser ----------

  datatype Reason =
    | BadRangeFormat | BadRangeValues | RangeOutOfBounds | RangeInverted
    | BadStepFormat | BadStepStart | BadStepValue
    | NotANumber | NotANumberOrName | ValueOutOfBounds
    | WrongFieldCount(count: nat)

  datatype Verdict = Accepted | Rejected(reason: Reason)

  // `names` is None where the source passes nil.
  type Names = Option<seq<string>>

  function ValidateField(field: string, min: int, max: int, names: Names): Verdict
    decreases |field|, 1, 0
  {
    if field == "*" || field == "?" then Accepted
    else if ',' in field then
      SplitParts(field, ',');
      var parts := Split(field, ',');
      assert forall p :: p in parts ==> PartOf(p, field, ',');
      ValidateParts(parts, |field|, min, max, names)
    else if '-' in field then ValidateRange(field, min, max, names)
    else if '/' in field then ValidateStep(field, min, max, names)
    else ValidateValue(field, min, max, names)
  }

  function ValidateValue(field: string, min: int, max: int, names: Names): Verdict {
    if Known(field, names) then Accepted
    else
      var num := Atoi(field);
      if num.None? then Rejected(if names.Some? then NotANumberOrName else NotANumber)
      else if num.value < min || num.value > max then Rejected(ValueOutOfBounds)
      else Accepted
  }

  function ValidateStep(field: string, min: int, max: int, names: Names): Verdict
    requires '/' in field
    decreases |field|, 0, 0
  {
    SplitParts(field, '/');
    var parts := Split(field, '/');
    if |parts| != 2 then Rejected(BadStepFormat)
    else
      assert PartOf(parts[0], field, '/');
      var rangePart := TrimSpace(parts[0]);
      var startVerdict :=
        if rangePart == "*" then Accepted
        else if '-' in rangePart then ValidateField(rangePart, min, max, names)
        else
          var num := Atoi(rangePart);
          if num.None? || num.value < min || num.value > max then Rejected(BadStepStart) else Accepted;
      if startVerdict.Rejected? then startVerdict
      else
        var step := Atoi(TrimSpace(parts[1]));
        if step.None? || step.value <= 0 then Rejected(BadStepValue) else Accepted
  }

  /** The loop over the parts of a list: the first rejection wins. */
  function ValidateParts(parts: seq<string>, bound: nat, min: int, max: int, names: Names): Verdict
    requires forall p :: p in parts ==> |p| < bound
    decreases bound, 0, |parts|
  {
    if parts == [] then Accepted
    else
      var first := ValidateField(TrimSpace(parts[0]), min, max, names);
      if first.Rejected? then first else ValidateParts(parts[1..], bound, min, max, names)
  }

  function ValidateRange(field: string, min: int, max: int, names: Names): Verdict {
    var parts := Split(field, '-');
    if |parts| != 2 then Rejected(BadRangeFormat)
    else
      var start, end := TrimSpace(parts[0]), TrimSpace(parts[1]);
      if Known(start, names) && Known(end, names) then
        if FindNameIndex(start, names.value) > FindNameIndex(end, names.value) then Rejected(RangeInverted)
        else Accepted
      else
        var startNum, endNum := Atoi(start), Atoi(end);
        if startNum.None? || endNum.None? then Rejected(BadRangeValues)
        else if startNum.value < min || startNum.value > max || endNum.value < min || endNum.value > max then
          Rejected(RangeOutOfBounds)
        else if startNum.value > endNum.value then Rejected(RangeInverted)
        else Accepted
  }

  /** The index of the first name equal to `name` up to letter case, or -1. */
  function FindNameIndex(name: string, names: seq<string>): (index: int)
    ensures -1 <= index < |names|
    ensures index >= 0 ==> ToUpper(names[index]) == ToUpper(name)
    ensures forall k :: 0 <= k < (if index >= 0 then index else |names|) ==> ToUpper(names[k]) != ToUpper(name)
  {
    if names == [] then -1
    else if ToUpper(names[0]) == ToUpper(name) then 0
    else
      var later := FindNameIndex(name, names[1..]);
      if later < 0 then -1 else later + 1
  }

  /** `s` is one of the allowed names, if there are any. */
  predicate Known(s: string, names: Names) {
    names.Some? && FindNameIndex(s, names.value) >= 0
  }

  datatype FieldSpec = FieldSpec(min: int, max: int, names: Names)

  const MONTH_NAMES := ["JAN", "FEB", "MAR", "APR", "MAY", "JUN", "JUL", "AUG", "SEP", "OCT", "NOV", "DEC"]
  const WEEKDAY_NAMES := ["SUN", "MON", "TUE", "WED", "THU", "FRI", "SAT"]

  // second, minute, hour, day of month, month, weekday
  const FIELD_SPECS: seq<FieldSpec> := [
    FieldSpec(0, 59, None), FieldSpec(0, 59, None), FieldSpec(0, 23, None),
    FieldSpec(1, 31, None), FieldSpec(1, 12, Some(MONTH_NAMES)), FieldSpec(0, 6, Some(WEEKDAY_NAMES))
  ]

  function ValidateCronExpression(expression: string): Verdict {
    var fields := Fields(expression);
    if |fields| != 6 then Rejected(WrongFieldCount(|fields|)) else ValidateSpecs(fields, 0)
  }

  function ValidateSpecs(fields: seq<string>, i: nat): Verdict
    requires |fields| == 6 && i <= 6
    decreases 6 - i
  {
    if i == 6 then Accepted
    else
      var spec := FIELD_SPECS[i];
      var verdict := ValidateField(fields[i], spec.min, spec.max, spec.names);
      if verdict.Rejected? then verdict else ValidateSpecs(fields, i + 1)
  }

  // ---------- the grammar ----------

  datatype Item =
    | Star
    | Question
    | Number(n: int)
    | Name(index: nat)
    | Range(lo: int, hi: int)
    | NameRange(first: nat, last: nat)
    | Step(start: Option<int>, stride: int)

  datatype Field = Single(item: Item) | List(items: seq<Item>)

  /** An unsigned or '+'-signed decimal number that fits 64 bits. */
  ghost predicate IsNumeral(s: string, n: int) {
    var digits := if s != "" && s[0] == '+' then s[1..] else s;
    IsDigits(digits) && n == DigitsValue(digits) && n <= MAX_INT64
  }

  /** `s` writes the name at `index`, in any letter case; a name holds no list or range separator. */
  ghost predicate IsName(s: string, names: Names, index: nat) {
    && names.Some?
    && FindNameIndex(s, names.value) == index
    && ',' !in s && '-' !in s
  }

  ghost predicate IsPair(s: string, left: string, sep: char, right: string) {
    s == left + [sep] + right
  }

  /** The string `s` is a way of writing the item. */
  ghost predicate Writes(item: Item, s: string, names: Names) {
    match item
    case Star => s == "*"
    case Question => s == "?"
    case Number(n) => IsNumeral(s, n)
    case Name(i) => IsName(s, names, i) && '/' !in s
    case Range(lo, hi) =>
      exists l, r ::
        && IsPair(s, l, '-', r)
        && IsNumeral(TrimSpace(l), lo)
        && IsNumeral(TrimSpace(r), hi)
        && !(Known(TrimSpace(l), names) && Known(TrimSpace(r), names))
    case NameRange(i, j) =>
      exists l, r :: IsPair(s, l, '-', r) && IsName(TrimSpace(l), names, i) && IsName(TrimSpace(r), names, j)
    case Step(start, stride) =>
      exists l, r ::
        && IsPair(s, l, '/', r)
        && (if start.None? then TrimSpace(l) == "*" else IsNumeral(TrimSpace(l), start.value))
        && IsNumeral(TrimSpace(r), stride)
  }

  /** The bounds and orders that a written item must respect. */
  ghost predicate Fits(item: Item, min: int, max: int) {
    match item
    case Star => true
    case Question => true
    case Number(n) => min <= n <= max
    case Name(_) => true
    case Range(lo, hi) => min <= lo <= hi <= max
    case NameRange(i, j) => i <= j
    case Step(start, stride) => stride > 0 && (start.Some? ==> min <= start.value <= max)
  }

  ghost predicate WritesField(f: Field, s: string, names: Names) {
    match f
    case Single(item) => ',' !in s && Writes(item, s, names)
    case List(items) =>
      exists parts: seq<string> ::
        && |parts| == |items| >= 2
        && Join(parts, ',') == s
        && forall i :: 0 <= i < |parts| ==> ',' !in parts[i] && Writes(items[i], TrimSpace(parts[i]), names)
  }

  ghost predicate FitsField(f: Field, min: int, max: int) {
    match f
    case Single(item) => Fits(item, min, max)
    case List(items) => forall item :: item in items ==> Fits(item, min, max)
  }

  // ---------- the meaning ----------

  ghost predicate OnProgression(x: int, lo: int, hi: int, stride: int) {
    stride > 0 && lo <= x <= hi && (x - lo) % stride == 0
  }

  /** lo, lo + stride, lo + 2 * stride, ... up to hi */
  ghost function Progression(lo: int, hi: int, stride: int): set<int> {
    set x | lo <= x <= hi && OnProgression(x, lo, hi, stride)
  }

  ghost function Denotes(item: Item, min: int, max: int): set<int> {
    match item
    case Star => Progression(min, max, 1)
    case Question => Progression(min, max, 1)
    case Number(n) => {n}
    case Name(i) => {min + i}
    case Range(lo, hi) => Progression(lo, hi, 1)
    case NameRange(i, j) => Progression(min + i, min + j, 1)
    case Step(start, stride) => Progression(if start.Some? then start.value else min, max, stride)
  }

  ghost function DenotesField(f: Field, min: int, max: int): set<int> {
    match f
    case Single(item) => Denotes(item, min, max)
    case List(items) => set item, x | item in items && x in Denotes(item, min, max) :: x
  }

  // ---------- lemmas about the lexical level ----------

  /** A trimmed numeral is read by Atoi, and no separator stands in the untrimmed text. */
  lemma NumeralToken(s: string, n: int)
    requires IsNumeral(TrimSpace(s), n)
    ensures Atoi(TrimSpace(s)) == Some(n)
    ensures '-' !in s && '/' !in s && ',' !in s && TrimSpace(s) != "*"
  {
    NumeralText(TrimSpace(s), n);
    TrimKeeps(s, '-');
    TrimKeeps(s, '/');
    TrimKeeps(s, ',');
  }

  lemma NumeralText(s: string, n: int)
    requires IsNumeral(s, n)
    ensures Atoi(s) == Some(n)
    ensures '-' !in s && '/' !in s && ',' !in s && s != "*" && s != "?"
  {
  }

  lemma AtoiReadsNumerals(s: string)
    requires '-' !in s && Atoi(s).Some?
    ensures IsNumeral(s, Atoi(s).value)
  {
  }

  lemma {:induction false} PairSplits(s: string, l: string, sep: char, r: string)
    requires IsPair(s, l, sep, r) && sep !in l && sep !in r
    ensures Split(s, sep) == [l, r]
    ensures sep in s && forall c :: c in s ==> c == sep || c in l || c in r
    ensures sep != '*' && sep != '?' ==> s != "*" && s != "?"
  {
    SplitPrefix(l, r, sep);
    SplitUnseparated(r, sep);
    assert s[|l|] == sep;
  }

  lemma {:induction false} SplitIsPair(s: string, sep: char)
    requires |Split(s, sep)| == 2
    ensures IsPair(s, Split(s, sep)[0], sep, Split(s, sep)[1])
    ensures sep !in Split(s, sep)[0] && sep !in Split(s, sep)[1]
  {
    var parts := Split(s, sep);
    JoinSplit(s, sep);
    SplitParts(s, sep);
    assert PartOf(parts[0], s, sep) && PartOf(parts[1], s, sep);
    assert Join(parts[1..], sep) == parts[1];
  }

  /** A character other than the separator that is not in `s` is in neither trimmed side. */
  lemma PairTokens(s: string, l: string, sep: char, r: string)
    requires IsPair(s, l, sep, r) && sep !in l && sep !in r && ',' !in s && (sep == '-' || '-' !in s)
    ensures ',' !in TrimSpace(l) && ',' !in TrimSpace(r) && '-' !in TrimSpace(l) && '-' !in TrimSpace(r)
  {
    forall c | c == ',' || c == '-'
      ensures c !in TrimSpace(l) && c !in TrimSpace(r)
    {
      TrimKeeps(l, c);
      TrimKeeps(r, c);
    }
  }

  // ---------- the recogniser accepts exactly the grammar ----------

  /** An accepted item without a comma can be read as an item of the grammar. */
  lemma ReadItem(s: string, min: int, max: int, names: Names) returns (item: Item)
    requires ',' !in s && ValidateField(s, min, max, names).Accepted?
    ensures Writes(item, s, names) && Fits(item, min, max)
  {
    if s == "*" {
      item := Star;
    } else if s == "?" {
      item := Question;
    } else if '-' in s {
      item := ReadRange(s, min, max, names);
    } else if '/' in s {
      item := ReadStep(s, min, max, names);
    } else if names.Some? && FindNameIndex(s, names.value) >= 0 {
      item := Name(FindNameIndex(s, names.value));
    } else {
      item := Number(Atoi(s).value);
      AtoiReadsNumerals(s);
    }
  }

  lemma ReadRange(s: string, min: int, max: int, names: Names) returns (item: Item)
    requires ',' !in s && ValidateRange(s, min, max, names).Accepted?
    ensures Writes(item, s, names) && Fits(item, min, max)
  {
    var parts := Split(s, '-');
    SplitIsPair(s, '-');
    var l, r := TrimSpace(parts[0]), TrimSpace(parts[1]);
    PairTokens(s, parts[0], '-', parts[1]);
    if Known(l, names) && Known(r, names) {
      item := NameRange(FindNameIndex(l, names.value), FindNameIndex(r, names.value));
    } else {
      item := Range(Atoi(l).value, Atoi(r).value);
      AtoiReadsNumerals(l);
      AtoiReadsNumerals(r);
    }
  }

  lemma ReadStep(s: string, min: int, max: int, names: Names) returns (item: Item)
    requires ',' !in s && '-' !in s && '/' in s && ValidateField(s, min, max, names).Accepted?
    ensures Writes(item, s, names) && Fits(item, min, max)
  {
    var parts := Split(s, '/');
    SplitIsPair(s, '/');
    var l, r := TrimSpace(parts[0]), TrimSpace(parts[1]);
    PairTokens(s, parts[0], '/', parts[1]);
    item := Step(if l == "*" then None else Some(Atoi(l).value), Atoi(r).value);
    AtoiReadsNumerals(r);
    if l != "*" {
      AtoiReadsNumerals(l);
    }
  }

  /** A string that writes a fitting item is accepted. */
  lemma {:induction false} WrittenItemAccepted(item: Item, s: string, min: int, max: int, names: Names)
    requires ',' !in s && Writes(item, s, names) && Fits(item, min, max)
    ensures ValidateField(s, min, max, names).Accepted?
  {
    match item
    case Star =>
    case Question =>
    case Number(n) => NumeralText(s, n);
    case Name(i) =>
    case Range(lo, hi) => WrittenRangeAccepted(lo, hi, s, min, max, names);
    case NameRange(i, j) => WrittenNameRangeAccepted(i, j, s, min, max, names);
    case Step(start, stride) => WrittenStepAccepted(start, stride, s, min, max, names);
  }

  lemma {:induction false} WrittenRangeAccepted(lo: int, hi: int, s: string, min: int, max: int, names: Names)
    requires ',' !in s && Writes(Range(lo, hi), s, names) && min <= lo <= hi <= max
    ensures ValidateField(s, min, max, names).Accepted?
  {
    var l, r := RangeSides(lo, hi, s, names);
    PairSplits(s, l, '-', r);
    RangeVerdict(s, l, r, lo, hi, min, max, names);
  }

  lemma {:induction false} RangeVerdict(
    s: string, l: string, r: string, lo: int, hi: int, min: int, max: int, names: Names)
    requires ',' !in s && '-' in s && s != "*" && s != "?" && Split(s, '-') == [l, r]
    requires Atoi(TrimSpace(l)) == Some(lo) && Atoi(TrimSpace(r)) == Some(hi) && min <= lo <= hi <= max
    requires !(Known(TrimSpace(l), names) && Known(TrimSpace(r), names))
    ensures ValidateField(s, min, max, names).Accepted?
  {
  }

  lemma RangeSides(lo: int, hi: int, s: string, names: Names) returns (l: string, r: string)
    requires Writes(Range(lo, hi), s, names)
    ensures IsPair(s, l, '-', r) && '-' !in l && '-' !in r
    ensures Atoi(TrimSpace(l)) == Some(lo) && Atoi(TrimSpace(r)) == Some(hi)
    ensures !(Known(TrimSpace(l), names) && Known(TrimSpace(r), names))
  {
    l, r :| IsPair(s, l, '-', r) && IsNumeral(TrimSpace(l), lo) && IsNumeral(TrimSpace(r), hi)
            && !(Known(TrimSpace(l), names) && Known(TrimSpace(r), names));
    NumeralToken(l, lo);
    NumeralToken(r, hi);
  }

  lemma {:induction false} WrittenNameRangeAccepted(i: nat, j: nat, s: string, min: int, max: int, names: Names)
    requires ',' !in s && Writes(NameRange(i, j), s, names) && i <= j
    ensures ValidateField(s, min, max, names).Accepted?
  {
    var l, r := NameRangeSides(i, j, s, names);
    PairSplits(s, l, '-', r);
    NameRangeVerdict(s, l, r, i, j, min, max, names);
  }

  lemma NameRangeSides(i: nat, j: nat, s: string, names: Names) returns (l: string, r: string)
    requires Writes(NameRange(i, j), s, names)
    ensures IsPair(s, l, '-', r) && '-' !in l && '-' !in r
    ensures names.Some?
    ensures FindNameIndex(TrimSpace(l), names.value) == i && FindNameIndex(TrimSpace(r), names.value) == j
  {
    l, r :| IsPair(s, l, '-', r) && IsName(TrimSpace(l), names, i) && IsName(TrimSpace(r), names, j);
    TrimKeeps(l, '-');
    TrimKeeps(r, '-');
  }

  lemma {:induction false} NameRangeVerdict(
    s: string, l: string, r: string, i: nat, j: nat, min: int, max: int, names: Names)
    requires ',' !in s && '-' in s && s != "*" && s != "?" && Split(s, '-') == [l, r] && i <= j
    requires names.Some?
    requires FindNameIndex(TrimSpace(l), names.value) == i && FindNameIndex(TrimSpace(r), names.value) == j
    ensures ValidateField(s, min, max, names).Accepted?
  {
  }

  lemma {:induction false} WrittenStepAccepted(
    start: Option<int>, stride: int, s: string, min: int, max: int, names: Names)
    requires ',' !in s && Writes(Step(start, stride), s, names) && Fits(Step(start, stride), min, max)
    ensures ValidateField(s, min, max, names).Accepted?
  {
    var l, r := StepSides(start, stride, s, names);
    TrimKeeps(l, '-');
    PairSplits(s, l, '/', r);
    StepVerdict(s, l, r, start, stride, min, max, names);
  }

  lemma StepSides(start: Option<int>, stride: int, s: string, names: Names)
    returns (l: string, r: string)
    requires Writes(Step(start, stride), s, names)
    ensures IsPair(s, l, '/', r) && '/' !in l && '/' !in r && '-' !in l && '-' !in r
    ensures if start.None? then TrimSpace(l) == "*" else Atoi(TrimSpace(l)) == start && TrimSpace(l) != "*"
    ensures Atoi(TrimSpace(r)) == Some(stride)
  {
    l, r :|
      && IsPair(s, l, '/', r)
      && (if start.None? then TrimSpace(l) == "*" else IsNumeral(TrimSpace(l), start.value))
      && IsNumeral(TrimSpace(r), stride);
    NumeralToken(r, stride);
    if start.Some? {
      NumeralToken(l, start.value);
    } else {
      TrimKeeps(l, '/');
      TrimKeeps(l, '-');
    }
  }

  lemma {:induction false} StepVerdict(
    s: string, l: string, r: string, start: Option<int>, stride: int, min: int, max: int, names: Names)
    requires ',' !in s && '-' !in s && '/' in s && Split(s, '/') == [l, r]
    requires if start.None? then TrimSpace(l) == "*"
             else Atoi(TrimSpace(l)) == start && TrimSpace(l) != "*" && '-' !in TrimSpace(l) && min <= start.value <= max
    requires Atoi(TrimSpace(r)) == Some(stride) && stride > 0
    ensures ValidateField(s, min, max, names).Accepted?
  {
  }

  lemma {:induction false} ReadParts(parts: seq<string>, bound: nat, min: int, max: int, names: Names)
    returns (items: seq<Item>)
    requires forall p :: p in parts ==> |p| < bound && ',' !in p
    requires ValidateParts(parts, bound, min, max, names).Accepted?
    ensures |items| == |parts|
    ensures forall i :: 0 <= i < |parts| ==> Writes(items[i], TrimSpace(parts[i]), names) && Fits(items[i], min, max)
  {
    if parts == [] {
      items := [];
    } else {
      TrimKeeps(parts[0], ',');
      var first := ReadItem(TrimSpace(parts[0]), min, max, names);
      var rest := ReadParts(parts[1..], bound, min, max, names);
      items := [first] + rest;
      assert forall i :: 0 < i < |parts| ==> items[i] == rest[i - 1] && parts[i] == parts[1..][i - 1];
    }
  }

  lemma {:induction false} WrittenPartsAccepted(
    items: seq<Item>, parts: seq<string>, bound: nat, min: int, max: int, names: Names)
    requires forall p :: p in parts ==> |p| < bound && ',' !in p
    requires |items| == |parts|
    requires forall i :: 0 <= i < |parts| ==> Writes(items[i], TrimSpace(parts[i]), names) && Fits(items[i], min, max)
    ensures ValidateParts(parts, bound, min, max, names).Accepted?
  {
    if parts != [] {
      TrimKeeps(parts[0], ',');
      WrittenItemAccepted(items[0], TrimSpace(parts[0]), min, max, names);
      WrittenPartsAccepted(items[1..], parts[1..], bound, min, max, names);
    }
  }

  lemma ReadField(s: string, min: int, max: int, names: Names) returns (f: Field)
    requires ValidateField(s, min, max, names).Accepted?
    ensures WritesField(f, s, names) && FitsField(f, min, max)
  {
    if ',' in s {
      var parts := Split(s, ',');
      SplitParts(s, ',');
      JoinSplit(s, ',');
      assert forall p :: p in parts ==> PartOf(p, s, ',');
      var items := ReadParts(parts, |s|, min, max, names);
      f := List(items);
    } else {
      var item := ReadItem(s, min, max, names);
      f := Single(item);
    }
  }

  lemma ListParts(items: seq<Item>, s: string, names: Names) returns (parts: seq<string>)
    requires WritesField(List(items), s, names)
    ensures Split(s, ',') == parts && |parts| == |items| >= 2
    ensures forall i :: 0 <= i < |parts| ==> ',' !in parts[i] && Writes(items[i], TrimSpace(parts[i]), names)
  {
    parts :|
      && |parts| == |items| >= 2
      && Join(parts, ',') == s
      && forall i :: 0 <= i < |parts| ==> ',' !in parts[i] && Writes(items[i], TrimSpace(parts[i]), names);
    SplitJoin(parts, ',');
  }

  lemma {:induction false} WrittenFieldAccepted(f: Field, s: string, min: int, max: int, names: Names)
    requires WritesField(f, s, names) && FitsField(f, min, max)
    ensures ValidateField(s, min, max, names).Accepted?
  {
    match f
    case Single(item) => WrittenItemAccepted(item, s, min, max, names);
    case List(items) =>
      var parts := ListParts(items, s, names);
      SplitParts(s, ',');
      assert forall p :: p in parts ==> PartOf(p, s, ',');
      WrittenPartsAccepted(items, parts, |s|, min, max, names);
  }

  /** ValidateField accepts exactly the strings that write a fitting field of the grammar. */
  lemma {:induction false} RecognisesTheGrammar(s: string, min: int, max: int, names: Names)
    ensures ValidateField(s, min, max, names).Accepted?
       <==> exists f :: WritesField(f, s, names) && FitsField(f, min, max)
  {
    if ValidateField(s, min, max, names).Accepted? {
      var f := ReadField(s, min, max, names);
    }
    forall f | WritesField(f, s, names) && FitsField(f, min, max)
      ensures ValidateField(s, min, max, names).Accepted?
    {
      WrittenFieldAccepted(f, s, min, max, names);
    }
  }

  // ---------- every accepted field denotes some of its values ----------

  /** The names of a field number its values from `min` upwards. */
  ghost predicate NamesNumberValues(min: int, max: int, names: Names) {
    min <= max && (names.Some? ==> |names.value| <= max - min + 1)
  }

  /** A written name is one of the allowed ones. */
  lemma NamesAreKnown(item: Item, s: string, names: Names)
    requires Writes(item, s, names)
    ensures item.Name? ==> names.Some? && item.index < |names.value|
    ensures item.NameRange? ==> names.Some? && item.last < |names.value|
  {
  }

  lemma ItemDenotesValues(item: Item, min: int, max: int, names: Names)
    requires NamesNumberValues(min, max, names) && Fits(item, min, max)
    requires item.Name? ==> names.Some? && item.index < |names.value|
    requires item.NameRange? ==> names.Some? && item.last < |names.value|
    ensures Denotes(item, min, max) != {}
    ensures forall x :: x in Denotes(item, min, max) ==> min <= x <= max
  {
    match item
    case Star => ProgressionBounds(min, max, 1);
    case Question => ProgressionBounds(min, max, 1);
    case Number(n) =>
    case Name(i) =>
    case Range(lo, hi) => ProgressionBounds(lo, hi, 1);
    case NameRange(i, j) => ProgressionBounds(min + i, min + j, 1);
    case Step(start, stride) => ProgressionBounds(if start.Some? then start.value else min, max, stride);
  }

  lemma ProgressionBounds(lo: int, hi: int, stride: int)
    requires lo <= hi && stride > 0
    ensures lo in Progression(lo, hi, stride)
    ensures forall x :: x in Progression(lo, hi, stride) ==> lo <= x <= hi
  {
  }

  lemma {:induction false} AcceptedFieldDenotesValues(s: string, min: int, max: int, names: Names)
    requires NamesNumberValues(min, max, names)
    requires ValidateField(s, min, max, names).Accepted?
    ensures exists f :: WritesField(f, s, names) && DenotesField(f, min, max) != {}
    ensures forall f :: WritesField(f, s, names) && FitsField(f, min, max) ==>
              DenotesField(f, min, max) != {} && forall x :: x in DenotesField(f, min, max) ==> min <= x <= max
  {
    forall f | WritesField(f, s, names) && FitsField(f, min, max)
      ensures DenotesField(f, min, max) != {} && forall x :: x in DenotesField(f, min, max) ==> min <= x <= max
    {
      FieldDenotesValues(f, s, min, max, names);
    }
    var f := ReadField(s, min, max, names);
    assert DenotesField(f, min, max) != {};
  }

  lemma FieldDenotesValues(f: Field, s: string, min: int, max: int, names: Names)
    requires NamesNumberValues(min, max, names) && WritesField(f, s, names) && FitsField(f, min, max)
    ensures DenotesField(f, min, max) != {}
    ensures forall x :: x in DenotesField(f, min, max) ==> min <= x <= max
  {
    match f
    case Single(item) =>
      NamesAreKnown(item, s, names);
      ItemDenotesValues(item, min, max, names);
    case List(items) =>
      var parts := ListParts(items, s, names);
      forall i | 0 <= i < |items|
        ensures Denotes(items[i], min, max) != {} && forall x :: x in Denotes(items[i], min, max) ==> min <= x <= max
      {
        NamesAreKnown(items[i], TrimSpace(parts[i]), names);
        ItemDenotesValues(items[i], min, max, names);
      }
      var x :| x in Denotes(items[0], min, max);
      assert items[0] in items && x in DenotesField(f, min, max);
  }

  /** `s` writes some field that fits the spec and denotes at least one of its values. */
  ghost predicate Meaningful(s: string, spec: FieldSpec) {
    exists f :: WritesField(f, s, spec.names) && FitsField(f, spec.min, spec.max)
                && DenotesField(f, spec.min, spec.max) != {}
  }

  /** An accepted expression has six words, each denoting a nonempty part of its field's values: seconds, minutes,
      hours, days of the month, months and weekdays. */
  lemma {:induction false} ExpressionAcceptedByFields(expression: string)
    ensures |Fields(expression)| == |set i | 0 <= i < |expression| && WordStart(expression, i)|
    ensures var words := Fields(expression);
            ValidateCronExpression(expression).Accepted? <==>
              && |words| == 6
              && Meaningful(words[0], FieldSpec(0, 59, None)) && Meaningful(words[1], FieldSpec(0, 59, None))
              && Meaningful(words[2], FieldSpec(0, 23, None)) && Meaningful(words[3], FieldSpec(1, 31, None))
              && Meaningful(words[4], FieldSpec(1, 12, Some(["JAN", "FEB", "MAR", "APR", "MAY", "JUN",
                                                             "JUL", "AUG", "SEP", "OCT", "NOV", "DEC"])))
              && Meaningful(words[5], FieldSpec(0, 6, Some(["SUN", "MON", "TUE", "WED", "THU", "FRI", "SAT"])))
  {
    FieldCount(expression);
    assert WordStarts(expression) == set i | 0 <= i < |expression| && WordStart(expression, i);
    SpecsAre();
    var fields := Fields(expression);
    if |fields| == 6 {
      SpecsAccepted(fields, 0);
      forall i | 0 <= i < 6
        ensures SpecAccepts(fields[i], FIELD_SPECS[i]) <==> Meaningful(fields[i], FIELD_SPECS[i])
      {
        SpecMeaning(fields[i], FIELD_SPECS[i]);
      }
    }
  }

  lemma SpecsAre()
    ensures FIELD_SPECS[0] == FieldSpec(0, 59, None) && FIELD_SPECS[1] == FieldSpec(0, 59, None)
    ensures FIELD_SPECS[2] == FieldSpec(0, 23, None) && FIELD_SPECS[3] == FieldSpec(1, 31, None)
    ensures FIELD_SPECS[4] == FieldSpec(1, 12, Some(["JAN", "FEB", "MAR", "APR", "MAY", "JUN",
                                                     "JUL", "AUG", "SEP", "OCT", "NOV", "DEC"]))
    ensures FIELD_SPECS[5] == FieldSpec(0, 6, Some(["SUN", "MON", "TUE", "WED", "THU", "FRI", "SAT"]))
  {
  }

  ghost predicate UpperDistinct(names: seq<string>) {
    && (forall i, k :: 0 <= i < |names| && 0 <= k < |names[i]| ==> 'A' <= names[i][k] <= 'Z')
    && forall i, j :: 0 <= i < j < |names| ==> names[i] != names[j]
  }

  lemma UpperStays(name: string)
    requires forall k :: 0 <= k < |name| ==> 'A' <= name[k] <= 'Z'
    ensures ToUpper(name) == name
  {
  }

  lemma {:induction false} NameFound(w: string, names: seq<string>, i: nat)
    requires UpperDistinct(names) && i < |names| && SameLetters(w, names[i])
    ensures FindNameIndex(w, names) == i
  {
    hide ToUpper, SameLetters;
    UpperOfSame(w, names[i]);
    forall k | 0 <= k < |names|
      ensures ToUpper(names[k]) == names[k]
    {
      UpperStays(names[k]);
    }
  }

  /** The names of months and weekdays are read in any mixture of upper and lower case. */
  lemma {:induction false} NamesRead(w: string, names: seq<string>, i: nat)
    requires names == MONTH_NAMES || names == WEEKDAY_NAMES
    requires i < |names| && SameLetters(w, names[i])
    ensures FindNameIndex(w, names) == i
  {
    hide SameLetters;
    NamesDiffer(names);
    NameFound(w, names, i);
  }

  lemma NamesDiffer(names: seq<string>)
    requires names == MONTH_NAMES || names == WEEKDAY_NAMES
    ensures UpperDistinct(names)
  {
  }

  ghost predicate SpecAccepts(s: string, spec: FieldSpec) {
    ValidateField(s, spec.min, spec.max, spec.names).Accepted?
  }

  lemma SpecMeaning(s: string, spec: FieldSpec)
    requires NamesNumberValues(spec.min, spec.max, spec.names)
    ensures SpecAccepts(s, spec) <==> Meaningful(s, spec)
  {
    RecognisesTheGrammar(s, spec.min, spec.max, spec.names);
    if SpecAccepts(s, spec) {
      var f := ReadField(s, spec.min, spec.max, spec.names);
      FieldDenotesValues(f, s, spec.min, spec.max, spec.names);
    }
  }

  lemma {:induction false} SpecsAccepted(fields: seq<string>, i: nat)
    requires |fields| == 6 && i <= 6
    ensures ValidateSpecs(fields, i).Accepted? <==>
              forall k :: i <= k < 6 ==> SpecAccepts(fields[k], FIELD_SPECS[k])
    decreases 6 - i
  {
  }

  // ---------- a range is never combined with a step ----------

  /** An item with both '-' and '/' is judged as a range, so "0-30/5" is rejected unless names hold a '/'. */
  lemma {:induction false} RangeWithStepRejected(s: string, min: int, max: int, names: Names)
    requires '-' in s && '/' in s && ',' !in s
    requires names.Some? ==> forall name :: name in names.value ==> '/' !in name
    ensures ValidateField(s, min, max, names).Rejected?
  {
    if ValidateField(s, min, max, names).Accepted? {
      assert s != "*" && s != "?";
      var parts := Split(s, '-');
      SplitIsPair(s, '-');
      var part := if '/' in parts[0] then parts[0] else parts[1];
      assert '/' in part;
      TrimKeeps(part, '/');
      var token := TrimSpace(part);
      if Known(token, names) {
        SlashNotInName(token, names.value[FindNameIndex(token, names.value)]);
      }
      assert Atoi(token).Some?;
      AtoiCharacters(token);
    }
  }

  lemma SlashNotInName(s: string, name: string)
    requires ToUpper(s) == ToUpper(name) && '/' in s
    ensures '/' in name
  {
  }

  lemma AtoiCharacters(s: string)
    requires Atoi(s).Some?
    ensures '/' !in s
  {
  }

  /** The branch of the step case that validates a range start is never taken. */
  lemma {:induction false} StepStartIsNoRange(s: string)
    requires '-' !in s && '/' in s
    ensures |Split(s, '/')| >= 1 && '-' !in TrimSpace(Split(s, '/')[0])
  {
    SplitParts(s, '/');
    assert PartOf(Split(s, '/')[0], s, '/');
    TrimKeeps(Split(s, '/')[0], '-');
  }
}
