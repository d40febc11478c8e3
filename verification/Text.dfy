/** The parts of Go's `strings`, `strconv` and `fmt` packages that the repository relies on. */
module Text {
  import opened Common

  // ---------- white space ----------

  /** Unicode White_Space, as `unicode.IsSpace` defines it. */
  predicate IsSpace(c: char) {
    || '\t' <= c <= '\r'
    || c == ' '
    || c == '\U{85}'
    || c == '\U{A0}'
    || c == '\U{1680}'
    || '\U{2000}' <= c <= '\U{200A}'
    || c == '\U{2028}'
    || c == '\U{2029}'
    || c == '\U{202F}'
    || c == '\U{205F}'
    || c == '\U{3000}'
  }

  /** The 25 characters that Unicode calls White_Space. */
  lemma SpacesAre(c: char)
    ensures IsSpace(c) <==>
              c in "\t\n\U{B}\U{C}\r \U{85}\U{A0}\U{1680}\U{2000}\U{2001}\U{2002}\U{2003}\U{2004}\U{2005}\U{2006}"
                   + "\U{2007}\U{2008}\U{2009}\U{200A}\U{2028}\U{2029}\U{202F}\U{205F}\U{3000}"
  {
  }

  function TrimLeft(s: string): (r: string)
    ensures |r| <= |s|
  {
    if s != "" && IsSpace(s[0]) then TrimLeft(s[1..]) else s
  }

  function TrimRight(s: string): (r: string)
    ensures |r| <= |s|
  {
    if s != "" && IsSpace(s[|s| - 1]) then TrimRight(s[..|s| - 1]) else s
  }

  function TrimSpace(s: string): (r: string)
    ensures |r| <= |s|
  {
    TrimRight(TrimLeft(s))
  }

  /** Trimming takes white space off both ends, and as much of it as there is. */
  lemma {:induction false} TrimLeftTakes(s: string)
    ensures var n := |s| - |TrimLeft(s)|;
            && TrimLeft(s) == s[n..] && (forall i :: 0 <= i < n ==> IsSpace(s[i]))
            && (n < |s| ==> !IsSpace(s[n]))
  {
    hide IsSpace;
    if s != "" && IsSpace(s[0]) {
      TrimLeftTakes(s[1..]);
    }
  }

  lemma {:induction false} TrimRightTakes(s: string)
    ensures var n := |TrimRight(s)|;
            && TrimRight(s) == s[..n] && (forall i :: n <= i < |s| ==> IsSpace(s[i]))
            && (n > 0 ==> !IsSpace(s[n - 1]))
  {
    hide IsSpace;
    if s != "" && IsSpace(s[|s| - 1]) {
      TrimRightTakes(s[..|s| - 1]);
    }
  }

  lemma TrimTakesSpace(s: string) returns (n: nat)
    ensures var r := TrimSpace(s);
            && n + |r| <= |s| && r == s[n..n + |r|]
            && (forall i :: 0 <= i < n || n + |r| <= i < |s| ==> IsSpace(s[i]))
            && (r != "" ==> !IsSpace(r[0]) && !IsSpace(r[|r| - 1]))
  {
    hide IsSpace;
    TrimLeftTakes(s);
    TrimRightTakes(TrimLeft(s));
    n := |s| - |TrimLeft(s)|;
    var left, r := TrimLeft(s), TrimSpace(s);
    assert r == left[..|r|] == s[n..n + |r|];
    forall i | n + |r| <= i < |s|
      ensures IsSpace(s[i])
    {
      assert s[i] == left[i - n];
    }
  }

  /** Trimming removes white space only. */
  lemma TrimKeeps(s: string, c: char)
    ensures c in TrimSpace(s) ==> c in s
    ensures c in s && !IsSpace(c) ==> c in TrimSpace(s)
  {
    TrimLeftKeeps(s, c);
    TrimRightKeeps(TrimLeft(s), c);
  }

  lemma {:induction false} TrimLeftKeeps(s: string, c: char)
    ensures c in TrimLeft(s) ==> c in s
    ensures c in s && !IsSpace(c) ==> c in TrimLeft(s)
  {
    if s != "" && IsSpace(s[0]) {
      assert s == [s[0]] + s[1..];
      TrimLeftKeeps(s[1..], c);
    }
  }

  lemma {:induction false} TrimRightKeeps(s: string, c: char)
    ensures c in TrimRight(s) ==> c in s
    ensures c in s && !IsSpace(c) ==> c in TrimRight(s)
  {
    if s != "" && IsSpace(s[|s| - 1]) {
      assert s == s[..|s| - 1] + [s[|s| - 1]];
      TrimRightKeeps(s[..|s| - 1], c);
    }
  }

  /** The length of the longest prefix without white space. */
  function WordLength(s: string): (n: nat)
    ensures n <= |s|
    ensures forall i :: 0 <= i < n ==> !IsSpace(s[i])
    ensures n < |s| ==> IsSpace(s[n])
  {
    if s == "" || IsSpace(s[0]) then 0 else 1 + WordLength(s[1..])
  }

  /** `strings.Fields`: the words between runs of white space. */
  function Fields(s: string): (words: seq<string>)
    ensures forall w :: w in words ==> w != "" && forall c :: c in w ==> !IsSpace(c)
    decreases |s|
  {
    if s == "" then []
    else if IsSpace(s[0]) then Fields(s[1..])
    else
      var n := WordLength(s);
      [s[..n]] + Fields(s[n..])
  }

  /** A stretch without white space starts here. */
  predicate WordStart(s: string, i: int) {
    0 <= i < |s| && !IsSpace(s[i]) && (i == 0 || IsSpace(s[i - 1]))
  }

  function WordStarts(s: string): set<int> {
    set i | 0 <= i < |s| && WordStart(s, i)
  }

  /** `w` is the longest stretch without white space that starts here. */
  predicate IsWord(s: string, w: string, i: int) {
    && WordStart(s, i) && i + |w| <= |s| && s[i..i + |w|] == w
    && (forall c :: c in w ==> !IsSpace(c))
    && (i + |w| < |s| ==> IsSpace(s[i + |w|]))
  }

  /** The words are those that start at these places, which are all the places where one starts, in order. */
  ghost predicate AreWords(s: string, words: seq<string>, at: seq<int>) {
    && |at| == |words| && (forall k :: 0 <= k < |words| ==> IsWord(s, words[k], at[k]))
    && (forall j, k :: 0 <= j < k < |at| ==> at[j] < at[k])
    && forall i :: WordStart(s, i) ==> i in at
  }

  function Shifted(at: seq<int>, n: nat): (r: seq<int>)
    ensures |r| == |at| && forall k :: 0 <= k < |at| ==> r[k] == at[k] + n
  {
    seq(|at|, k requires 0 <= k < |at| => at[k] + n)
  }

  /** Where the rest of a string may start without cutting a word. */
  predicate AtGap(s: string, n: int) {
    0 < n <= |s| && (IsSpace(s[n - 1]) || n == |s| || IsSpace(s[n]))
  }

  lemma StartShifts(s: string, n: nat, i: int)
    requires AtGap(s, n) && i >= 0
    ensures WordStart(s[n..], i) <==> WordStart(s, i + n)
  {
    hide IsSpace;
  }

  lemma WordShifts(s: string, n: nat, w: string, i: int)
    requires AtGap(s, n) && IsWord(s[n..], w, i)
    ensures IsWord(s, w, i + n)
  {
    hide IsSpace;
    StartShifts(s, n, i);
    assert s[n..][i..i + |w|] == s[i + n..i + n + |w|];
  }

  /** Words of the rest of a string are words of the string, `n` places further on. */
  lemma WordsShift(s: string, n: nat, words: seq<string>, at: seq<int>)
    requires AtGap(s, n) && AreWords(s[n..], words, at)
    ensures forall k :: 0 <= k < |words| ==> IsWord(s, words[k], Shifted(at, n)[k])
    ensures forall i :: i >= n && WordStart(s, i) ==> i in Shifted(at, n)
  {
    hide WordStart, IsWord, IsSpace;
    forall k | 0 <= k < |words|
      ensures IsWord(s, words[k], at[k] + n)
    {
      WordShifts(s, n, words[k], at[k]);
    }
    forall i | i >= n && WordStart(s, i)
      ensures i in Shifted(at, n)
    {
      StartShifts(s, n, i - n);
      assert WordStart(s[n..], i - n);
      var k :| 0 <= k < |at| && at[k] == i - n;
      assert Shifted(at, n)[k] == i;
    }
  }

  lemma WordAtStart(s: string, w: string, i: int)
    requires IsWord(s, w, i)
    ensures 0 <= i && WordStart(s, i)
  {
  }

  /** One more word, or none, before those of the rest. */
  lemma WordsExtend(s: string, n: nat, first: seq<string>, words: seq<string>, at: seq<int>)
    requires AtGap(s, n) && AreWords(s[n..], words, at)
    requires first == [] || (|first| == 1 && IsWord(s, first[0], 0))
    requires forall i :: 0 <= i < n && WordStart(s, i) ==> first != [] && i == 0
    ensures AreWords(s, first + words, (if first == [] then [] else [0]) + Shifted(at, n))
  {
    hide WordStart, IsWord, IsSpace;
    WordsShift(s, n, words, at);
    var all := (if first == [] then [] else [0]) + Shifted(at, n);
    forall k | 0 <= k < |at|
      ensures at[k] >= 0
    {
      WordAtStart(s[n..], words[k], at[k]);
    }
    forall i | WordStart(s, i)
      ensures i in all
    {
      StartNonnegative(s, i);
      if i < n {
        assert all[0] == 0;
      } else {
        assert i in Shifted(at, n);
      }
    }
  }

  lemma StartNonnegative(s: string, i: int)
    requires WordStart(s, i)
    ensures i >= 0
  {
  }

  /** Fields lists the longest stretches without white space, in order. */
  lemma {:induction false} FieldsAreWords(s: string) returns (at: seq<int>)
    ensures AreWords(s, Fields(s), at)
    decreases |s|
  {
    hide IsSpace, AreWords, IsWord;
    if s == "" {
      at := [];
      NoWords();
    } else if IsSpace(s[0]) {
      at := FieldsAreWords(s[1..]);
      WordsExtend(s, 1, [], Fields(s[1..]), at);
      at := [] + Shifted(at, 1);
      assert [] + Fields(s[1..]) == Fields(s);
    } else {
      var n := WordLength(s);
      at := FieldsAreWords(s[n..]);
      FirstWord(s);
      WordsExtend(s, n, [s[..n]], Fields(s[n..]), at);
      at := [0] + Shifted(at, n);
    }
  }

  lemma NoWords()
    ensures AreWords("", Fields(""), [])
  {
  }

  lemma {:induction false} FirstWord(s: string)
    requires s != "" && !IsSpace(s[0])
    ensures WordLength(s) > 0 && IsWord(s, s[..WordLength(s)], 0)
    ensures forall i :: 0 < i < WordLength(s) ==> !WordStart(s, i)
  {
  }

  lemma {:induction false} IncreasingSize(at: seq<int>, places: set<int>)
    requires forall j, k :: 0 <= j < k < |at| ==> at[j] < at[k]
    requires forall i :: i in places <==> i in at
    ensures |places| == |at|
  {
    if at != [] {
      var n := |at| - 1;
      assert at == at[..n] + [at[n]];
      IncreasingSize(at[..n], places - {at[n]});
    } else {
      assert forall i :: i in places ==> i in at;
      assert places == {};
    }
  }

  /** So there are as many fields as places where a stretch without white space starts. */
  lemma {:induction false} FieldCount(s: string)
    ensures |Fields(s)| == |WordStarts(s)|
  {
    var at := FieldsAreWords(s);
    forall k | 0 <= k < |at|
      ensures WordStart(s, at[k])
    {
      assert IsWord(s, Fields(s)[k], at[k]);
    }
    IncreasingSize(at, WordStarts(s));
  }

  // ---------- splitting ----------

  /** `strings.Split` with a one-character separator. */
  function Split(s: string, sep: char): (parts: seq<string>)
    ensures |parts| >= 1
  {
    if s == "" then [""]
    else
      var rest := Split(s[1..], sep);
      if s[0] == sep then [""] + rest
      else
        [[s[0]] + rest[0]] + rest[1..]
  }

  function Join(parts: seq<string>, sep: char): string
    requires |parts| >= 1
  {
    if |parts| == 1 then parts[0] else parts[0] + [sep] + Join(parts[1..], sep)
  }

  lemma {:induction false} JoinSplit(s: string, sep: char)
    ensures Join(Split(s, sep), sep) == s
  {
    if s != "" {
      JoinSplit(s[1..], sep);
      var rest := Split(s[1..], sep);
      if s[0] == sep {
        assert ([""] + rest)[1..] == rest;
      } else {
        var first := [s[0]] + rest[0];
        assert ([first] + rest[1..])[1..] == rest[1..];
        if |rest| > 1 {
          assert Join(rest, sep) == rest[0] + [sep] + Join(rest[1..], sep);
          assert [s[0]] + (rest[0] + [sep] + Join(rest[1..], sep)) == first + [sep] + Join(rest[1..], sep);
        }
        assert s == [s[0]] + s[1..];
      }
    }
  }

  /** Each part is made of characters of `s` other than the separator, and is shorter than `s` if there is a split. */
  lemma {:induction false} SplitParts(s: string, sep: char)
    ensures |Split(s, sep)| >= 2 <==> sep in s
    ensures forall i :: 0 <= i < |Split(s, sep)| ==> PartOf(Split(s, sep)[i], s, sep)
  {
    if s != "" {
      SplitParts(s[1..], sep);
      var rest := Split(s[1..], sep);
      assert s == [s[0]] + s[1..];
      forall i | 0 <= i < |Split(s, sep)| ensures PartOf(Split(s, sep)[i], s, sep) {
        if s[0] == sep {
          if i > 0 {
            assert PartOf(rest[i - 1], s[1..], sep);
          }
        } else {
          assert PartOf(rest[i], s[1..], sep);
          if i == 0 {
            assert forall c :: c in [s[0]] + rest[0] ==> c == s[0] || c in rest[0];
          }
        }
      }
    }
  }

  predicate PartOf(part: string, s: string, sep: char) {
    && sep !in part
    && (forall c :: c in part ==> c in s)
    && |part| <= |s|
    && (sep in s ==> |part| < |s|)
  }

  lemma {:induction false} SplitPrefix(a: string, rest: string, sep: char)
    requires sep !in a
    ensures Split(a + [sep] + rest, sep) == [a] + Split(rest, sep)
  {
    var s := a + [sep] + rest;
    if a == "" {
      assert s[1..] == rest;
    } else {
      SplitPrefix(a[1..], rest, sep);
      assert s[1..] == a[1..] + [sep] + rest;
      assert a == [a[0]] + a[1..];
    }
  }

  lemma {:induction false} SplitUnseparated(s: string, sep: char)
    requires sep !in s
    ensures Split(s, sep) == [s]
  {
    if s != "" {
      SplitUnseparated(s[1..], sep);
      assert s == [s[0]] + s[1..];
    }
  }

  /** Splitting recovers the parts from which a string was joined. */
  lemma {:induction false} SplitJoin(parts: seq<string>, sep: char)
    requires |parts| >= 1
    requires forall p :: p in parts ==> sep !in p
    ensures Split(Join(parts, sep), sep) == parts
  {
    if |parts| == 1 {
      SplitUnseparated(parts[0], sep);
    } else {
      SplitJoin(parts[1..], sep);
      SplitPrefix(parts[0], Join(parts[1..], sep), sep);
    }
  }

  // ---------- decimal numbers ----------

  predicate IsDigit(c: char) {
    '0' <= c <= '9'
  }

  function DigitValue(c: char): (d: nat)
    requires IsDigit(c)
    ensures d < 10
  {
    c as int - '0' as int
  }

  predicate IsDigits(s: string) {
    |s| > 0 && forall i :: 0 <= i < |s| ==> IsDigit(s[i])
  }

  /** The number that a string of digits writes. */
  function DigitsValue(s: string): nat
    requires forall i :: 0 <= i < |s| ==> IsDigit(s[i])
  {
    if s == "" then 0 else 10 * DigitsValue(s[..|s| - 1]) + DigitValue(s[|s| - 1])
  }

  /** `strconv.Atoi`: an optional sign and decimal digits that fit 64 bits. */
  function Atoi(s: string): (r: Option<int>) {
    var signed := s != "" && (s[0] == '+' || s[0] == '-');
    var digits := if signed then s[1..] else s;
    if !IsDigits(digits) then None
    else
      var n: int := DigitsValue(digits);
      if signed && s[0] == '-' then
        if n <= MAX_INT64 + 1 then Some(-n) else None
      else
        if n <= MAX_INT64 then Some(n) else None
  }

  /** Atoi reads a number with or without a sign that fits 64 bits, and nothing else. */
  lemma {:induction false} AtoiReads(digits: string)
    requires IsDigits(digits)
    ensures var n: int := DigitsValue(digits);
            && Atoi(digits) == Atoi("+" + digits) == (if n <= MAX_INT64 then Some(n) else None)
            && Atoi("-" + digits) == (if n <= MAX_INT64 + 1 then Some(-n) else None)
  {
    assert ("+" + digits)[1..] == digits == ("-" + digits)[1..];
  }

  lemma AtoiRefuses(s: string)
    requires Atoi(s).Some?
    ensures s != "" && IsDigits(if s[0] == '+' || s[0] == '-' then s[1..] else s)
  {
  }

  function Decimal(n: nat): (s: string)
    ensures IsDigits(s)
    ensures DigitsValue(s) == n
  {
    var digit := [('0' as int + n % 10) as char];
    if n < 10 then digit
    else
      var s := Decimal(n / 10) + digit;
      assert s[..|s| - 1] == Decimal(n / 10);
      s
  }

  // ---------- upper case ----------

  /** `unicode.ToUpper`, exact for every rune whose upper case is an ASCII character. */
  function UpperChar(c: char): char {
    if 'a' <= c <= 'z' then (c as int - 'a' as int + 'A' as int) as char
    else if c == '\U{131}' then 'I'
    else if c == '\U{17F}' then 'S'
    else c
  }

  /** The same letters, each in upper or lower case; `upper` has them in upper case. */
  predicate SameLetters(s: string, upper: string) {
    && |s| == |upper|
    && forall i :: 0 <= i < |s| ==>
         'A' <= upper[i] <= 'Z' && (s[i] == upper[i] || s[i] as int == upper[i] as int - 'A' as int + 'a' as int)
  }

  function ToUpper(s: string): (r: string)
    ensures |r| == |s|
    ensures forall i :: 0 <= i < |s| ==> r[i] == UpperChar(s[i])
  {
    seq(|s|, i requires 0 <= i < |s| => UpperChar(s[i]))
  }

  lemma UpperOfSame(s: string, upper: string)
    requires SameLetters(s, upper)
    ensures ToUpper(s) == upper
  {
  }
}
