// Shared vocabulary: optional values, JSON documents, white space and trimming.

module Basics {
  datatype Option<+T> = None | Some(value: T) {
    function GetOr(default: T): T {
      if Some? then value else default
    }
  }

  /** A JSON document. Numbers are exact reals, so 1 and 1.0 are one value, as JSON Schema has it. */
  datatype Json =
    | JNull
    | JBool(b: bool)
    | JNum(n: real)
    | JStr(s: string)
    | JArr(items: seq<Json>)
    | JObj(fields: map<string, Json>)
  {
    /** The value under `key`, when this is an object that has it. */
    function Get(key: string): Option<Json> {
      if JObj? && key in fields then Some(fields[key]) else None
    }
  }

  /** White space, as a regular expression has it. */
  predicate White(c: char) {
    var u := c as int;
    9 <= u <= 13 || 0x2000 <= u <= 0x200A || u in {0x20, 0xA0, 0x1680, 0x2028, 0x2029, 0x202F, 0x205F, 0x3000, 0xFEFF}
  }

  function TrimStart(s: string): string { if s != "" && White(s[0]) then TrimStart(s[1..]) else s }

  function TrimEnd(s: string): string { if s != "" && White(s[|s| - 1]) then TrimEnd(s[..|s| - 1]) else s }

  function Trim(s: string): string { TrimEnd(TrimStart(s)) }

  predicate AllWhite(s: string) { forall i | 0 <= i < |s| :: White(s[i]) }

  /** Only white space is trimmed off, and none is left at either end. */
  lemma TrimsWhite(s: string) returns (before: string, after: string)
    ensures s == before + Trim(s) + after && AllWhite(before) && AllWhite(after)
    ensures Trim(s) != "" ==> !White(Trim(s)[0]) && !White(Trim(s)[|Trim(s)| - 1])
  {
    before := TrimsStart(s);
    after := TrimsEnd(TrimStart(s));
    assert TrimStart(s) == Trim(s) + after;
  }

  lemma {:induction false} TrimsStart(s: string) returns (before: string)
    ensures s == before + TrimStart(s) && AllWhite(before) && (TrimStart(s) != "" ==> !White(TrimStart(s)[0]))
  {
    if s != "" && White(s[0]) {
      var rest := TrimsStart(s[1..]);
      before := [s[0]] + rest;
      assert s == [s[0]] + s[1..];
    } else {
      before := "";
    }
  }

  lemma {:induction false} TrimsEnd(s: string) returns (after: string)
    ensures s == TrimEnd(s) + after && AllWhite(after)
    ensures TrimEnd(s) != "" ==> TrimEnd(s)[0] == s[0] && !White(TrimEnd(s)[|TrimEnd(s)| - 1])
  {
    if s != "" && White(s[|s| - 1]) {
      var rest := TrimsEnd(s[..|s| - 1]);
      after := rest + [s[|s| - 1]];
      assert s == s[..|s| - 1] + [s[|s| - 1]];
    } else {
      after := "";
    }
  }
}
