/** parseConnectedSlaves of state/redis/redis.go: the replica count in the reply to INFO replication. */
module ReplicaInfo {
  import opened Decimal

  const MARKER := "connected_slaves:"
  const MAX_UINT32: int := 0xFFFF_FFFF

  predicate OccursAt(s: string, sub: string, i: nat) {
    i + |sub| <= |s| && s[i..i + |sub|] == sub
  }

  /** strings.Contains. */
  predicate Contains(s: string, sub: string) {
    exists i: nat :: i <= |s| && OccursAt(s, sub, i)
  }

  predicate CrlfAt(s: string, i: int) {
    0 <= i < |s| - 1 && s[i] == '\r' && s[i + 1] == '\n'
  }

  predicate NoCrlf(s: string) {
    forall i :: 0 <= i < |s| ==> !CrlfAt(s, i)
  }

  /** The first CRLF at or after from, |s| if there is none. */
  function FindCrlf(s: string, from: nat): (i: nat)
    requires from <= |s|
    ensures from <= i <= |s| && (i < |s| ==> CrlfAt(s, i))
    ensures forall j :: from <= j < i ==> !CrlfAt(s, j)
    decreases |s| - from
  {
    if from == |s| || CrlfAt(s, from) then from else FindCrlf(s, from + 1)
  }

  /** strings.Split at CRLF. */
  function Split(s: string): (lines: seq<string>)
    ensures lines != []
    decreases |s|
  {
    var i := FindCrlf(s, 0);
    if i == |s| then [s] else [s[..i]] + Split(s[i + 2..])
  }

  function Join(lines: seq<string>): string
    requires lines != []
  {
    if |lines| == 1 then lines[0] else lines[0] + "\r\n" + Join(lines[1..])
  }

  /**
   strconv.ParseUint(s, 10, 32) with its error dropped: digits from the left, 0 at the first other
   character, the largest value as soon as 32 bits overflow.
   */
  function ParseUint32(s: string): nat {
    ParseFrom(s, 0, 0)
  }

  function ParseFrom(s: string, i: nat, value: nat): (r: nat)
    requires i <= |s| && value <= MAX_UINT32
    ensures r <= MAX_UINT32
    decreases |s| - i
  {
    if i == |s| then value
    else if !IsDigit(s[i]) then 0
    else
      var next := 10 * value + DigitValue(s[i]);
      if next > MAX_UINT32 then MAX_UINT32 else ParseFrom(s, i + 1, next)
  }

  /** The count in the first line that mentions the marker, wherever in the line, from line i on. */
  function CountIn(lines: seq<string>, i: nat): (r: nat)
    requires i <= |lines|
    ensures r <= MAX_UINT32
    decreases |lines| - i
  {
    if i == |lines| then 0
    else if Contains(lines[i], MARKER) then ParseUint32(lines[i][|MARKER|..])
    else CountIn(lines, i + 1)
  }

  /** parseConnectedSlaves. The slice is always in bounds, and the result always fits 32 bits. */
  method ParseConnectedSlaves(res: string) returns (n: nat)
    ensures n == CountIn(Split(res), 0) && n <= MAX_UINT32
  {
    var infos := Split(res);
    for i := 0 to |infos|
      invariant CountIn(infos, 0) == CountIn(infos, i)
    {
      if Contains(infos[i], MARKER) {
        return ParseUint32(infos[i][|MARKER|..]);
      }
    }
    return 0;
  }

  lemma FindCrlfIs(s: string, from: nat, i: nat)
    requires from <= i <= |s| && (i < |s| ==> CrlfAt(s, i))
    requires forall j :: from <= j < i ==> !CrlfAt(s, j)
    ensures FindCrlf(s, from) == i
  {
  }

  /** Splitting undoes joining, for lines that contain no CRLF themselves. */
  lemma {:induction false} SplitJoin(lines: seq<string>)
    requires lines != [] && forall i :: 0 <= i < |lines| ==> NoCrlf(lines[i])
    ensures Split(Join(lines)) == lines
  {
    var s, line := Join(lines), lines[0];
    if |lines| == 1 {
      FindCrlfIs(s, 0, |s|);
    } else {
      var rest := Join(lines[1..]);
      assert s == line + "\r\n" + rest;
      forall j | 0 <= j < |line| ensures !CrlfAt(s, j) {
        assert !CrlfAt(line, j);
      }
      assert CrlfAt(s, |line|);
      FindCrlfIs(s, 0, |line|);
      assert s[..|line|] == line && s[|line| + 2..] == rest;
      SplitJoin(lines[1..]);
      assert lines == [line] + lines[1..];
    }
  }

  lemma {:induction false} PrefixIsSmaller(s: string, i: nat)
    requires AllDigits(s) && i <= |s|
    ensures DigitsValue(s[..i]) <= DigitsValue(s)
    decreases |s|
  {
    if i == |s| {
      assert s[..i] == s;
    } else {
      var init := s[..|s| - 1];
      PrefixIsSmaller(init, i);
      assert init[..i] == s[..i];
    }
  }

  lemma {:induction false} ParseDigits(s: string, i: nat)
    requires AllDigits(s) && i <= |s| && DigitsValue(s) <= MAX_UINT32
    ensures DigitsValue(s[..i]) <= MAX_UINT32
    ensures ParseFrom(s, i, DigitsValue(s[..i])) == DigitsValue(s)
    decreases |s| - i
  {
    PrefixIsSmaller(s, i);
    if i == |s| {
      assert s[..i] == s;
    } else {
      PrefixIsSmaller(s, i + 1);
      assert s[..i + 1][..i] == s[..i];
      ParseDigits(s, i + 1);
    }
  }

  lemma {:induction false} CountInSkips(lines: seq<string>, i: nat, k: nat)
    requires i <= k < |lines| && Contains(lines[k], MARKER)
    requires forall j :: i <= j < k ==> !Contains(lines[j], MARKER)
    ensures CountIn(lines, i) == ParseUint32(lines[k][|MARKER|..])
    decreases k - i
  {
    if i < k {
      CountInSkips(lines, i + 1, k);
    }
  }

  /** The parser inverts the printer: the first line with the marker, if it is marker and number, decides. */
  lemma ParserInvertsPrinter(lines: seq<string>, k: nat, n: nat)
    requires k < |lines| && n <= MAX_UINT32
    requires forall i :: 0 <= i < |lines| ==> NoCrlf(lines[i])
    requires forall i :: 0 <= i < k ==> !Contains(lines[i], "connected_slaves:")
    requires lines[k] == "connected_slaves:" + NatText(n)
    ensures CountIn(Split(Join(lines)), 0) == n
  {
    SplitJoin(lines);
    assert OccursAt(lines[k], MARKER, 0);
    CountInSkips(lines, 0, k);
    assert lines[k][|MARKER|..] == NatText(n);
    NatTextValue(n);
    assert NatText(n)[..0] == "";
    ParseDigits(NatText(n), 0);
  }

  lemma {:induction false} CountInNothing(lines: seq<string>, i: nat)
    requires i <= |lines| && forall j :: i <= j < |lines| ==> !Contains(lines[j], MARKER)
    ensures CountIn(lines, i) == 0
    decreases |lines| - i
  {
    if i < |lines| {
      CountInNothing(lines, i + 1);
    }
  }

  /** Without the marker the count is 0. */
  lemma NoMarkerNoReplicas(lines: seq<string>)
    requires lines != []
    requires forall i :: 0 <= i < |lines| ==> NoCrlf(lines[i]) && !Contains(lines[i], "connected_slaves:")
    ensures CountIn(Split(Join(lines)), 0) == 0
  {
    hide Join, Split, Contains;
    SplitJoin(lines);
    CountInNothing(lines, 0);
  }

  /** Anything but a digit, before 32 bits overflow, makes the count 0. */
  lemma {:induction false} SyntaxErrorIsZero(s: string, i: nat, k: nat)
    requires i <= k < |s| && AllDigits(s[..k]) && !IsDigit(s[k])
    requires AllDigits(s[..i]) && DigitsValue(s[..k]) <= MAX_UINT32 && DigitsValue(s[..i]) <= MAX_UINT32
    ensures ParseFrom(s, i, DigitsValue(s[..i])) == 0
    decreases k - i
  {
    if i < k {
      assert s[..k][i] == s[i];
      assert s[..i + 1][..i] == s[..i] && s[..k][..i + 1] == s[..i + 1];
      PrefixIsSmaller(s[..k], i + 1);
      SyntaxErrorIsZero(s, i + 1, k);
    }
  }

  /** A number too large for 32 bits is clamped, whatever follows the overflow. */
  lemma {:induction false} OverflowClamps(s: string, tail: string, i: nat)
    requires AllDigits(s) && i <= |s| && DigitsValue(s[..i]) <= MAX_UINT32 < DigitsValue(s)
    ensures ParseFrom(s + tail, i, DigitsValue(s[..i])) == MAX_UINT32
    decreases |s| - i
  {
    assert s[..|s|] == s;
    assert s[..i + 1][..i] == s[..i];
    if DigitsValue(s[..i + 1]) <= MAX_UINT32 {
      OverflowClamps(s, tail, i + 1);
    }
  }
}
