// What a program printed and what it returned (runtime-quickjs.ts, OutputLedger), in so many bytes
// together: the value takes precedence, and the last lines give way to it. A line too long for what is
// left is cut at a byte, which may fall inside a character.

module OutputLedger {

  type CodePoint = c: nat | c < 0x11_0000

  type Line = seq<CodePoint>

  const REPLACEMENT: CodePoint := 0xFFFD
  const ELLIPSIS: CodePoint := 0x2026

  /** Bytes of a code point in UTF-8. */
  function Width(c: CodePoint): (w: nat)
    ensures 1 <= w <= 4
  {
    if c < 0x80 then 1 else if c < 0x800 then 2 else if c < 0x1_0000 then 3 else 4
  }

  function Power(b: nat, n: nat): nat { if n == 0 then 1 else b * Power(b, n - 1) }

  /** How many code points so many bytes can tell apart: one byte has seven bits for it, and of `n` bytes the
      first has `7 - n` and the others six each (RFC 3629, section 3). */
  function Carries(n: nat): nat
    requires 1 <= n <= 4
  {
    if n == 1 then Power(2, 7) else Power(2, 7 - n) * Power(64, n - 1)
  }

  /** A code point takes as many bytes as it needs, and no more. */
  lemma WidthIsLeast(c: CodePoint)
    ensures c < Carries(Width(c)) && (Width(c) > 1 ==> c >= Carries(Width(c) - 1))
  {
    assert Power(2, 3) == 8 && Power(2, 4) == 16 && Power(2, 5) == 32 && Power(2, 7) == 128;
    assert Power(64, 0) == 1 && Power(64, 1) == 64;
    assert Power(64, 2) == 64 * 64 && Power(64, 3) == 64 * (64 * 64);
  }

  /** A lone surrogate has no UTF-8 form; it is encoded as the replacement character. */
  function Sane(c: CodePoint): (s: CodePoint)
    ensures Width(s) == Width(c)
  {
    if IsSurrogate(c) then REPLACEMENT else c
  }

  predicate IsSurrogate(c: CodePoint) { 0xD800 <= c < 0xE000 }

  function Bytes(line: Line): nat {
    if line == [] then 0 else Width(line[0]) + Bytes(line[1..])
  }

  /** The first `room` bytes of a line, decoded: a character cut in two decodes to one replacement
      character. */
  function Cut(line: Line, room: nat): Line {
    if line == [] || room == 0 then []
    else if Width(line[0]) <= room then [Sane(line[0])] + Cut(line[1..], room - Width(line[0]))
    else [REPLACEMENT]
  }

  /** What the first `k` lines take: their bytes, and one more each. */
  function SizeTo(lines: seq<Line>, k: nat): nat
    requires k <= |lines|
  {
    if k == 0 then 0 else SizeTo(lines, k - 1) + Bytes(lines[k - 1]) + 1
  }

  function Size(lines: seq<Line>): nat { SizeTo(lines, |lines|) }

  /** How many of the first `n` lines, from the first, fit the cap whole. */
  function Whole(cap: nat, lines: seq<Line>, n: nat := |lines|): (k: nat)
    requires n <= |lines|
    ensures k <= n && SizeTo(lines, k) <= cap
    ensures k < n ==> cap < SizeTo(lines, k + 1)
  {
    if SizeTo(lines, n) <= cap then n else Whole(cap, lines, n - 1)
  }

  /** Bytes left for the text of the line that overflows. */
  function Room(cap: nat, lines: seq<Line>): nat { Max0(cap - SizeTo(lines, Whole(cap, lines)) - 1) }

  function Max0(n: int): nat { if n < 0 then 0 else n }

  /** The lines held once `lines` were logged: those that fit, then the cut of the one that did not. */
  function Held(cap: nat, lines: seq<Line>): seq<Line> {
    var k := Whole(cap, lines);
    lines[..k] + (if k < |lines| && Room(cap, lines) > 0 then [Cut(lines[k], Room(cap, lines))] else [])
  }

  /** By how much the running count is off, once the cut line is gone. It counted `room` bytes for
      that line and takes off the decoded ones; or, with no room for a cut, it counted a whole cap. */
  function Drift(cap: nat, lines: seq<Line>): int {
    var k := Whole(cap, lines);
    if k == |lines| then 0
    else if Room(cap, lines) > 0 then Room(cap, lines) - Bytes(Cut(lines[k], Room(cap, lines)))
    else cap - SizeTo(lines, k)
  }

  /** How many of the first `k` lines stay beside a value of `bytes`, counting `drift` off. */
  function Kept(cap: nat, lines: seq<Line>, k: nat, drift: int, bytes: nat): (j: nat)
    requires k <= |lines|
    ensures j <= k
  {
    if k == 0 || Max0(SizeTo(lines, k) + drift) + bytes <= cap then k
    else Kept(cap, lines, k - 1, drift, bytes)
  }

  /** How many of the logged lines stay beside a value of `bytes`. */
  function KeptBeside(cap: nat, lines: seq<Line>, bytes: nat): (j: nat)
    ensures j <= Whole(cap, lines)
  {
    Kept(cap, lines, Whole(cap, lines), Drift(cap, lines), bytes)
  }

  /** A ledger while lines are dropped for a value of `bytes`: it still holds the cut line, or a run of
      whole lines, and then the count is their size plus the drift. */
  ghost predicate Counting(cap: nat, lines: seq<Line>, bytes: nat, logs: seq<Line>, used: nat, truncated: bool) {
    var whole := Whole(cap, lines);
    && (Size(lines) > cap || |logs| < whole ==> truncated)
    && (truncated ==> Size(lines) + bytes > cap)
    && if |logs| > whole then logs == Held(cap, lines) && |logs| == whole + 1 && used == cap < Size(lines)
       else
         && logs == lines[..|logs|]
         && (logs != [] ==> used == Max0(SizeTo(lines, |logs|) + Drift(cap, lines)))
         && Kept(cap, lines, |logs|, Drift(cap, lines), bytes) == KeptBeside(cap, lines, bytes)
  }

  /** What a program returned: nothing, something that is no plain data, or data with its JSON text. */
  datatype Returned = Nothing | NotData | Data(json: Line)

  datatype Value = NoValue | InvalidValue | WholeValue(json: Line) | Shortened(text: Line)

  datatype Result = Result(logs: seq<Line>, truncated: bool, value: Value)

  // ---------------------------------------------------------------- the ledger

  class Ledger {
    const cap: nat
    var logs: seq<Line>
    var truncated: bool
    var used: nat
    ghost var logged: seq<Line>

    ghost predicate Valid()
      reads this
    {
      && logs == Held(cap, logged)
      && truncated == (Size(logged) > cap)
      && used == (if truncated then cap else Size(logged))
    }

    constructor (cap: nat)
      ensures Valid() && this.cap == cap && logged == []
    {
      this.cap, logs, truncated, used, logged := cap, [], false, 0, [];
    }

    method Log(line: Line)
      requires Valid()
      modifies this
      ensures Valid() && logged == old(logged) + [line]
    {
      Appended(cap, logged, line);
      logged := logged + [line];
      if truncated { return; }
      var bytes := Bytes(line) + 1;
      if used + bytes > cap {
        var room := if cap - used - 1 > 0 then cap - used - 1 else 0;
        if room > 0 { logs := logs + [Cut(line, room)]; }
        used := cap;
        truncated := true;
        return;
      }
      logs := logs + [line];
      used := used + bytes;
    }

    /** A value whose JSON fits the cap comes back whole, beside a prefix of the lines logged, none of
        them cut; `truncated` says exactly that lines and value together were over the cap. */
    method Finish(returned: Returned) returns (result: Result)
      requires Valid() && (returned.Data? ==> returned.json != [])
      modifies this`logs, this`used, this`truncated
      ensures !returned.Data? ==>
        result == Result(Held(cap, logged), Size(logged) > cap, if returned.Nothing? then NoValue else InvalidValue)
      ensures returned.Data? && Bytes(returned.json) > cap ==>
        result == Result([], true, Shortened(Cut(returned.json, Max0(cap - 1)) + [ELLIPSIS]))
      ensures returned.Data? && Bytes(returned.json) <= cap ==>
        && result.value == WholeValue(returned.json)
        && result.truncated == (Size(logged) + Bytes(returned.json) > cap)
        && result.logs == logged[..KeptBeside(cap, logged, Bytes(returned.json))]
    {
      match returned
      case Nothing => result := Result(logs, truncated, NoValue);
      case NotData => result := Result(logs, truncated, InvalidValue);
      case Data(json) =>
        var valueBytes := Bytes(json);
        if valueBytes > cap {
          return Result([], true, Shortened(Cut(json, Max0(cap - 1)) + [ELLIPSIS]));
        }
        StartsCounting(cap, logged, valueBytes, logs, used, truncated);
        MakeRoom(valueBytes);
        result := Result(logs, truncated, WholeValue(json));
    }

    method MakeRoom(valueBytes: nat)
      requires Counting(cap, logged, valueBytes, logs, used, truncated) && 0 < valueBytes <= cap
      modifies this`logs, this`used, this`truncated
      ensures truncated == (Size(logged) + valueBytes > cap)
      ensures logs == logged[..KeptBeside(cap, logged, valueBytes)]
    {
      while used + valueBytes > cap && |logs| > 0
        invariant Counting(cap, logged, valueBytes, logs, used, truncated)
        decreases |logs|
      {
        DropLast(valueBytes);
      }
      StopsCounting(cap, logged, valueBytes, logs, used, truncated);
    }

    method DropLast(ghost valueBytes: nat)
      requires Counting(cap, logged, valueBytes, logs, used, truncated) && |logs| > 0 && used + valueBytes > cap
      modifies this`logs, this`used, this`truncated
      ensures Counting(cap, logged, valueBytes, logs, used, truncated)
      ensures |logs| == old(|logs|) - 1
    {
      DropKeepsCounting(cap, logged, valueBytes, logs, used, truncated);
      var dropped := logs[|logs| - 1];
      logs := logs[..|logs| - 1];
      used := Max0(used - Bytes(dropped) - 1);
      truncated := true;
    }
  }

  // ---------------------------------------------------------------- cutting

  /** A cut takes the bytes it was given room for, and up to two more for a character cut in two. */
  lemma {:induction false} CutBytes(line: Line, room: nat)
    requires Bytes(line) > room
    ensures room <= Bytes(Cut(line, room)) <= room + 2
  {
    if room > 0 {
      if Width(line[0]) <= room {
        var rest := Cut(line[1..], room - Width(line[0]));
        CutBytes(line[1..], room - Width(line[0]));
        assert Cut(line, room)[0] == Sane(line[0]) && Cut(line, room)[1..] == rest;
      } else {
        assert Cut(line, room)[1..] == [];
      }
    }
  }

  /** A cut line is a prefix of the line, up to characters UTF-8 cannot carry, and at most its last
      character stands for one that was cut. */
  lemma {:induction false} CutIsPrefix(line: Line, room: nat)
    ensures var cut := Cut(line, room);
      && |cut| <= |line|
      && (forall i | 0 <= i < |cut| :: cut[i] == Sane(line[i]) || (i == |cut| - 1 && cut[i] == REPLACEMENT))
  {
    if line != [] && room > 0 && Width(line[0]) <= room {
      CutIsPrefix(line[1..], room - Width(line[0]));
      var rest := Cut(line[1..], room - Width(line[0]));
      forall i | 0 <= i < |Cut(line, room)|
        ensures Cut(line, room)[i] == Sane(line[i])
          || (i == |Cut(line, room)| - 1 && Cut(line, room)[i] == REPLACEMENT) {
        if i > 0 { assert Cut(line, room)[i] == rest[i - 1] && line[1..][i - 1] == line[i]; }
      }
    }
  }

  /** What a cut is: the characters that fit whole, as they are, and a replacement for one that fits in part. */
  lemma {:induction false} CutExactly(line: Line, room: nat) returns (k: nat)
    ensures k <= |line| && Bytes(line[..k]) <= room && (k < |line| ==> Bytes(line[..k + 1]) > room)
    ensures var cut, parted := Cut(line, room), k < |line| && Bytes(line[..k]) < room;
      && |cut| == k + (if parted then 1 else 0) && (parted ==> cut[k] == REPLACEMENT)
      && forall i | 0 <= i < k :: cut[i] == if IsSurrogate(line[i]) then REPLACEMENT else line[i]
  {
    if line == [] || room == 0 {
      k := 0;
      assert line[..0] == [];
      if line != [] { assert line[..1][1..] == [] && Bytes(line[..1]) == Width(line[0]); }
    } else if Width(line[0]) <= room {
      var rest := line[1..];
      var j := CutExactly(rest, room - Width(line[0]));
      k := j + 1;
      assert line[..k][1..] == rest[..j] && Bytes(line[..k]) == Width(line[0]) + Bytes(rest[..j]);
      if k < |line| {
        assert line[..k + 1][1..] == rest[..j + 1] && Bytes(line[..k + 1]) == Width(line[0]) + Bytes(rest[..j + 1]);
      }
      forall i | 0 <= i < k ensures Cut(line, room)[i] == if IsSurrogate(line[i]) then REPLACEMENT else line[i] {
        if i > 0 { assert rest[i - 1] == line[i]; }
      }
    } else {
      k := 0;
      assert line[..0] == [] && line[..1][1..] == [] && Bytes(line[..1]) == Width(line[0]);
    }
  }

  lemma {:induction false} BytesAppend(a: Line, b: Line)
    ensures Bytes(a + b) == Bytes(a) + Bytes(b)
  {
    if a == [] {
      assert a + b == b;
    } else {
      BytesAppend(a[1..], b);
      assert (a + b)[1..] == a[1..] + b;
    }
  }

  /** A value that does not fit is never shortened to the cap: with the ellipsis it takes two to four
      bytes more. */
  lemma ShortenedIsOverCap(cap: nat, json: Line)
    requires Bytes(json) > cap > 0
    ensures cap + 2 <= Bytes(Cut(json, Max0(cap - 1)) + [ELLIPSIS]) <= cap + 4
  {
    CutBytes(json, cap - 1);
    BytesAppend(Cut(json, cap - 1), [ELLIPSIS]);
  }

  // ---------------------------------------------------------------- what the count is worth

  lemma {:induction false} SizeAgrees(lines: seq<Line>, others: seq<Line>, k: nat)
    requires k <= |lines| && k <= |others| && lines[..k] == others[..k]
    ensures SizeTo(lines, k) == SizeTo(others, k)
  {
    if k > 0 {
      assert lines[..k - 1] == lines[..k][..k - 1] == others[..k - 1];
      assert lines[k - 1] == lines[..k][k - 1] == others[k - 1];
      SizeAgrees(lines, others, k - 1);
    }
  }

  lemma SizeAppend(lines: seq<Line>, line: Line, k: nat)
    requires k <= |lines|
    ensures SizeTo(lines + [line], k) == SizeTo(lines, k)
  {
  }

  lemma {:induction false} WholeAppend(cap: nat, lines: seq<Line>, line: Line, n: nat)
    requires n <= |lines|
    ensures Whole(cap, lines + [line], n) == Whole(cap, lines, n)
  {
    SizeAppend(lines, line, n);
    if SizeTo(lines, n) > cap { WholeAppend(cap, lines, line, n - 1); }
  }

  lemma Appended(cap: nat, lines: seq<Line>, line: Line)
    ensures Size(lines + [line]) == Size(lines) + Bytes(line) + 1
    ensures Size(lines) > cap ==> Held(cap, lines + [line]) == Held(cap, lines)
    ensures Size(lines) <= cap ==> Held(cap, lines) == lines
    ensures Size(lines + [line]) <= cap ==> Held(cap, lines + [line]) == lines + [line]
    ensures Size(lines) <= cap < Size(lines + [line]) ==>
      var room := Max0(cap - Size(lines) - 1);
      Held(cap, lines + [line]) == lines + (if room > 0 then [Cut(line, room)] else [])
  {
    var more := lines + [line];
    SizeAppend(lines, line, |lines|);
    WholeAppend(cap, lines, line, |lines|);
    SizeAppend(lines, line, Whole(cap, lines));
    assert more[..Whole(cap, lines)] == lines[..Whole(cap, lines)];
  }

  lemma {:induction false} SizesGrow(lines: seq<Line>, j: nat, k: nat)
    requires j <= k <= |lines|
    ensures SizeTo(lines, j) + (k - j) <= SizeTo(lines, k)
    decreases k
  {
    if j < k { SizesGrow(lines, j, k - 1); }
  }

  lemma StartsCounting(cap: nat, lines: seq<Line>, bytes: nat, logs: seq<Line>, used: nat, truncated: bool)
    requires logs == Held(cap, lines) && truncated == (Size(lines) > cap)
    requires used == (if truncated then cap else Size(lines))
    ensures Counting(cap, lines, bytes, logs, used, truncated)
  {
  }

  lemma DropKeepsCounting(cap: nat, lines: seq<Line>, bytes: nat, logs: seq<Line>, used: nat, truncated: bool)
    requires Counting(cap, lines, bytes, logs, used, truncated) && logs != [] && used + bytes > cap
    ensures Counting(cap, lines, bytes, logs[..|logs| - 1], Max0(used - Bytes(logs[|logs| - 1]) - 1), true)
  {
  }

  lemma StopsCounting(cap: nat, lines: seq<Line>, bytes: nat, logs: seq<Line>, used: nat, truncated: bool)
    requires Counting(cap, lines, bytes, logs, used, truncated)
      && (used + bytes <= cap || logs == []) && 0 < bytes <= cap
    ensures logs == lines[..KeptBeside(cap, lines, bytes)]
    ensures truncated == (Size(lines) + bytes > cap)
  {
  }

  /** The count is at most two bytes short, and at most one over. */
  lemma DriftIsSmall(cap: nat, lines: seq<Line>)
    ensures -2 <= Drift(cap, lines) <= 1
    ensures Drift(cap, lines) < 0 ==> SizeTo(lines, Whole(cap, lines)) + 2 <= cap
    ensures Drift(cap, lines) > 0 ==> SizeTo(lines, Whole(cap, lines)) + 1 == cap
  {
    var k := Whole(cap, lines);
    if k < |lines| {
        if Room(cap, lines) > 0 { CutBytes(lines[k], Room(cap, lines)); }
    }
  }

  lemma {:induction false} KeptIsLast(cap: nat, lines: seq<Line>, k: nat, drift: int, bytes: nat)
    requires k <= |lines|
    ensures var j := Kept(cap, lines, k, drift, bytes);
      && (j == 0 || Max0(SizeTo(lines, j) + drift) + bytes <= cap)
      && (j < k ==> Max0(SizeTo(lines, j + 1) + drift) + bytes > cap)
    decreases k
  {
    if !(k == 0 || Max0(SizeTo(lines, k) + drift) + bytes <= cap) {
      KeptIsLast(cap, lines, k - 1, drift, bytes);
    }
  }

  /** The first `room` bytes of a line end inside a character, after one or two bytes of it: decoded,
      these are fewer than the replacement character takes. */
  predicate SplitsEarly(line: Line, room: nat) {
    exists i | 0 <= i < |line| :: EndsInside(line, i, room)
  }

  predicate EndsInside(line: Line, i: nat, room: nat)
    requires i < |line|
  {
    Bytes(line[..i]) < room < Bytes(line[..i + 1]) && room - Bytes(line[..i]) < 3
  }

  /** The line that overflows is held cut, and cut after one or two bytes of a character. */
  predicate CutEarly(cap: nat, lines: seq<Line>) {
    var k := Whole(cap, lines);
    k < |lines| && Room(cap, lines) > 0 && SplitsEarly(lines[k], Room(cap, lines))
  }

  /** The lines held leave one byte, too little for any of the line that overflows. */
  predicate OneByteLeft(cap: nat, lines: seq<Line>) {
    var k := Whole(cap, lines);
    k < |lines| && SizeTo(lines, k) + 1 == cap
  }

  lemma {:induction false} SplitsEarlyTail(line: Line, room: nat)
    requires line != [] && Width(line[0]) <= room
    ensures SplitsEarly(line, room) <==> SplitsEarly(line[1..], room - Width(line[0]))
  {
    var rest, less := line[1..], room - Width(line[0]);
    assert !EndsInside(line, 0, room) by { assert line[..1][1..] == []; }
    forall i | 0 <= i < |rest| ensures EndsInside(rest, i, less) <==> EndsInside(line, i + 1, room) {
      assert line[..i + 1][1..] == rest[..i] && line[..i + 2][1..] == rest[..i + 1];
    }
    if SplitsEarly(line, room) {
      var i :| 0 <= i < |line| && EndsInside(line, i, room);
      assert EndsInside(rest, i - 1, less);
    }
    if SplitsEarly(rest, less) {
      var i :| 0 <= i < |rest| && EndsInside(rest, i, less);
      assert EndsInside(line, i + 1, room);
    }
  }

  /** A cut takes more bytes than it was given room for exactly when it ends early in a character. */
  lemma {:induction false} CutOverrunsExactly(line: Line, room: nat)
    requires Bytes(line) > room
    ensures Bytes(Cut(line, room)) > room <==> SplitsEarly(line, room)
  {
    if room > 0 {
      if Width(line[0]) <= room {
        var rest := Cut(line[1..], room - Width(line[0]));
        CutOverrunsExactly(line[1..], room - Width(line[0]));
        SplitsEarlyTail(line, room);
        assert Cut(line, room)[0] == Sane(line[0]) && Cut(line, room)[1..] == rest;
      } else {
        assert Cut(line, room) == [REPLACEMENT] && Bytes([REPLACEMENT]) == 3 by { assert [REPLACEMENT][1..] == []; }
        assert line[..1][1..] == [] && Bytes(line[..1]) == Width(line[0]);
        assert EndsInside(line, 0, room) <==> room < 3;
        forall i | 0 < i < |line| ensures !EndsInside(line, i, room) { assert Bytes(line[..i]) >= Width(line[0]); }
      }
    }
  }

  /** When the running count is off, in terms of the lines: short exactly when a cut ended early in a
      character, and over exactly when one byte was left. */
  lemma CountIsOffExactly(cap: nat, lines: seq<Line>)
    ensures Drift(cap, lines) < 0 <==> CutEarly(cap, lines)
    ensures Drift(cap, lines) > 0 <==> OneByteLeft(cap, lines)
  {
    var k := Whole(cap, lines);
    if k < |lines| && Room(cap, lines) > 0 {
      CutBytes(lines[k], Room(cap, lines));
      CutOverrunsExactly(lines[k], Room(cap, lines));
    }
  }

  /** With no value to make room for, the lines held pass the cap by at most two bytes, and keep to it
      exactly when none is cut early in a character. */
  lemma HeldNearlyWithinCap(cap: nat, lines: seq<Line>)
    ensures Size(Held(cap, lines)) <= cap + 2
    ensures Size(Held(cap, lines)) <= cap <==> !CutEarly(cap, lines)
  {
    var k, held := Whole(cap, lines), Held(cap, lines);
    DriftIsSmall(cap, lines);
    CountIsOffExactly(cap, lines);
    assert held[..k] == lines[..k];
    SizeAgrees(held, lines, k);
    assert |held| <= k + 1;
  }

  /** Bytes taken by the lines kept beside a value of `bytes`, and the value. */
  function Output(cap: nat, lines: seq<Line>, bytes: nat): nat {
    SizeTo(lines, KeptBeside(cap, lines, bytes)) + bytes
  }

  /** Lines and value never pass the cap by more than the part of a character a cut may add. */
  lemma NearlyWithinCap(cap: nat, lines: seq<Line>, bytes: nat)
    requires bytes <= cap
    ensures Output(cap, lines, bytes) <= cap + Max0(-Drift(cap, lines)) <= cap + 2
  {
    DriftIsSmall(cap, lines);
    KeptIsLast(cap, lines, Whole(cap, lines), Drift(cap, lines), bytes);
  }

  /** Every value that fits leaves lines and value within the cap exactly when no line was cut early in a
      character, or none was held before the cut one. */
  lemma WithinCapExactly(cap: nat, lines: seq<Line>)
    ensures (forall bytes | 1 <= bytes <= cap :: Output(cap, lines, bytes) <= cap)
      <==> !CutEarly(cap, lines) || Whole(cap, lines) == 0
  {
    CountIsOffExactly(cap, lines);
    var k, drift := Whole(cap, lines), Drift(cap, lines);
    DriftIsSmall(cap, lines);
    if drift >= 0 || k == 0 {
      forall bytes | 1 <= bytes <= cap ensures Output(cap, lines, bytes) <= cap {
        KeptIsLast(cap, lines, k, drift, bytes);
      }
    } else {
      SizesGrow(lines, 0, k);
      var bytes := cap - Max0(SizeTo(lines, k) + drift);
      assert Kept(cap, lines, k, drift, bytes) == k;
      assert 1 <= bytes <= cap && Output(cap, lines, bytes) > cap;
    }
  }

  /** The longest run of lines that fits beside the value. */
  predicate Longest(cap: nat, lines: seq<Line>, bytes: nat, j: nat) {
    && j <= |lines|
    && SizeTo(lines, j) + bytes <= cap
    && (j < |lines| ==> SizeTo(lines, j + 1) + bytes > cap)
  }

  /** No line is dropped that could have stayed, and none stays that should have gone, for every value
      that fits, exactly when no line was cut early in a character and the lines held did not leave just one
      byte, or no line was held. */
  lemma LongestExactly(cap: nat, lines: seq<Line>)
    ensures (forall bytes | 1 <= bytes <= cap :: Longest(cap, lines, bytes, KeptBeside(cap, lines, bytes)))
      <==> (!CutEarly(cap, lines) && !OneByteLeft(cap, lines)) || Whole(cap, lines) == 0
  {
    CountIsOffExactly(cap, lines);
    var k, drift := Whole(cap, lines), Drift(cap, lines);
    DriftIsSmall(cap, lines);
    if drift == 0 || k == 0 {
      forall bytes | 1 <= bytes <= cap ensures Longest(cap, lines, bytes, KeptBeside(cap, lines, bytes)) {
        KeptIsLast(cap, lines, k, drift, bytes);
      }
    } else if drift < 0 {
      WithinCapExactly(cap, lines);
      var bytes :| 1 <= bytes <= cap && Output(cap, lines, bytes) > cap;
      assert !Longest(cap, lines, bytes, KeptBeside(cap, lines, bytes));
    } else {
      SizesGrow(lines, 0, k);
      var bytes, j := 1, KeptBeside(cap, lines, 1);
      assert j == Kept(cap, lines, k - 1, drift, 1);
      SizesGrow(lines, j + 1, k);
      assert 1 <= bytes <= cap && !Longest(cap, lines, bytes, KeptBeside(cap, lines, bytes));
    }
  }

  /** An empty line and one four-byte character, under a cap of four: beside a value of four bytes the
      empty line stays, and the output takes five. */
  lemma PassesTheCap()
    ensures CutEarly(4, [[], [0x1F600]]) && Output(4, [[], [0x1F600]], 4) == 5
  {
    var lines: seq<Line> := [[], [0x1F600]];
    assert lines[1][1..] == [] && Bytes(lines[1]) == 4;
    assert SizeTo(lines, 1) == 1 && SizeTo(lines, 2) == 6;
    assert Whole(4, lines) == 1 && Room(4, lines) == 2;
    assert lines[1][..0] == [] && lines[1][..1] == lines[1];
    assert EndsInside(lines[1], 0, 2);
    CountIsOffExactly(4, lines);
    DriftIsSmall(4, lines);
    assert KeptBeside(4, lines, 4) == 1;
  }
}
