/** The start time of a process from its `/proc/<pid>/stat` line (field 22 in proc(5)). */
module ProcStats {
  import opened Outcomes
  import opened FileNames

  const STARTTIME_INDEX_AFTER_COMM := 19
  const U32_MAX: int := 0xFFFF_FFFF

  // ----- The standard library's text functions

  function Find(s: string, c: char): (r: Option<nat>)
    ensures r.Some? ==> r.value < |s| && s[r.value] == c && c !in s[..r.value]
    ensures r.None? ==> c !in s
  {
    if |s| == 0 then None
    else if s[0] == c then Some(0)
    else
      var r := Find(s[1..], c);
      if r.None? then None
      else
        assert s[..r.value + 1] == [s[0]] + s[1..][..r.value];
        Some(r.value + 1)
  }

  function FindLast(s: string, c: char): (r: Option<nat>)
    ensures r.Some? ==> r.value < |s| && s[r.value] == c && c !in s[r.value + 1..]
    ensures r.None? ==> c !in s
  {
    if |s| == 0 then None
    else if s[|s| - 1] == c then Some(|s| - 1)
    else
      var r := FindLast(s[..|s| - 1], c);
      if r.None? then None
      else
        assert s[r.value + 1..] == s[..|s| - 1][r.value + 1..] + [s[|s| - 1]];
        r
  }

  function TrimStart(s: string): string {
    if |s| > 0 && WhiteSpace(s[0]) then TrimStart(s[1..]) else s
  }

  function TrimEnd(s: string): string {
    if |s| > 0 && WhiteSpace(s[|s| - 1]) then TrimEnd(s[..|s| - 1]) else s
  }

  function Trim(s: string): string {
    TrimEnd(TrimStart(s))
  }

  function WordLength(s: string): (n: nat)
    ensures n <= |s|
    ensures n < |s| ==> WhiteSpace(s[n])
    ensures forall i | 0 <= i < n :: !WhiteSpace(s[i])
    ensures |s| > 0 && !WhiteSpace(s[0]) ==> n > 0
  {
    if |s| == 0 || WhiteSpace(s[0]) then 0 else 1 + WordLength(s[1..])
  }

  /** The maximal pieces without white space. */
  function Words(s: string): seq<string>
    decreases |s|
  {
    if |s| == 0 then []
    else if WhiteSpace(s[0]) then Words(s[1..])
    else [s[..WordLength(s)]] + Words(s[WordLength(s)..])
  }

  predicate AllDigits(s: string) {
    forall i | 0 <= i < |s| :: '0' <= s[i] <= '9'
  }

  /** An unsigned integer as `parse` accepts it: an optional plus sign and digits in range. */
  function ParseUnsigned(s: string, maximum: int): Option<nat> {
    var digits := if |s| > 0 && s[0] == '+' then s[1..] else s;
    if |digits| == 0 || !AllDigits(digits) then None
    else if FromDecimal(digits) > maximum then None
    else Some(FromDecimal(digits))
  }

  // ----- The parser

  function ParseStartTicks(input: string, expectedPid: nat): Option<nat> {
    var open, close := Find(input, '('), FindLast(input, ')');
    if open.None? || close.None? || close.value <= open.value then None
    else
      var pid := ParseUnsigned(Trim(input[..open.value]), U32_MAX);
      if pid != Some(expectedPid) then None
      else
        var words := Words(input[close.value + 1..]);
        if |words| <= STARTTIME_INDEX_AFTER_COMM then None
        else
          var ticks := ParseUnsigned(words[STARTTIME_INDEX_AFTER_COMM], U64_MAX);
          if ticks == Some(0) then None else ticks
  }

  // ----- The line the kernel writes

  /** A field: not empty, no white space, no closing parenthesis. */
  predicate PlainField(field: string) {
    |field| > 0 && ')' !in field && forall i | 0 <= i < |field| :: !WhiteSpace(field[i])
  }

  function SpacedFields(fields: seq<string>): string {
    if |fields| == 0 then "\n" else " " + fields[0] + SpacedFields(fields[1..])
  }

  /** `fields` are the fields after the command name, the third field first. */
  function StatLine(pid: nat, comm: string, fields: seq<string>): string {
    Decimal(pid) + " (" + comm + ")" + SpacedFields(fields)
  }

  lemma {:induction false} FieldsAreWords(fields: seq<string>)
    requires forall i | 0 <= i < |fields| :: PlainField(fields[i])
    ensures Words(SpacedFields(fields)) == fields
    ensures ')' !in SpacedFields(fields)
    ensures |SpacedFields(fields)| > 0 && WhiteSpace(SpacedFields(fields)[0])
  {
    if |fields| == 0 {
      assert "\n"[1..] == "";
    } else {
      var field, rest := fields[0], SpacedFields(fields[1..]);
      FieldsAreWords(fields[1..]);
      var line := SpacedFields(fields);
      assert line[1..] == field + rest;
      FirstWord(field, rest);
      assert [field] + fields[1..] == fields;
    }
  }

  lemma FirstWord(field: string, rest: string)
    requires PlainField(field) && |rest| > 0 && WhiteSpace(rest[0])
    ensures Words(field + rest) == [field] + Words(rest)
  {
    var s := field + rest;
    var n := WordLength(s);
    assert s[|field|] == rest[0];
    assert n == |field| by {
      assert forall i | 0 <= i < |field| :: s[i] == field[i];
    }
    assert s[..n] == field && s[n..] == rest;
  }

  lemma DecimalIsDigits(n: nat)
    ensures AllDigits(Decimal(n)) && '(' !in Decimal(n) && ')' !in Decimal(n)
    ensures !WhiteSpace(Decimal(n)[0]) && !WhiteSpace(Decimal(n)[|Decimal(n)| - 1]) && Decimal(n)[0] != '+'
  {
  }

  lemma {:induction false} ParseDecimal(n: nat, maximum: int)
    ensures ParseUnsigned(Decimal(n), maximum) == if n <= maximum then Some(n) else None
  {
    DecimalIsDigits(n);
    DecimalRoundTrip(n);
  }

  lemma TrimTrailingSpace(s: string)
    requires |s| > 0 && !WhiteSpace(s[0]) && !WhiteSpace(s[|s| - 1])
    ensures Trim(s + " ") == s
  {
    var t := s + " ";
    assert t[0] == s[0];
    assert TrimStart(t) == t;
    assert t[..|t| - 1] == s;
    assert TrimEnd(t) == TrimEnd(s) == s;
  }

  lemma {:induction false} FirstParenthesis(before: string, after: string, c: char)
    requires c !in before
    ensures Find(before + [c] + after, c) == Some(|before|)
  {
    if |before| > 0 {
      FirstParenthesis(before[1..], after, c);
      assert (before + [c] + after)[1..] == before[1..] + [c] + after;
    }
  }

  lemma {:induction false} LastParenthesis(before: string, after: string, c: char)
    requires c !in after
    ensures FindLast(before + [c] + after, c) == Some(|before|)
  {
    if |after| > 0 {
      var rest := after[..|after| - 1];
      LastParenthesis(before, rest, c);
      var s := before + [c] + after;
      assert s[|s| - 1] == after[|after| - 1];
      assert s[..|s| - 1] == before + [c] + rest;
    }
  }

  /**
   The parser recovers field 22 of the line, counted from the process id, for every command
   name, with any spaces, parentheses and white space in it; a start time of zero or beyond
   64 bits and every other process id are refused.
   */
  lemma {:induction false} StartTicksRoundTrip(pid: nat, comm: string, fields: seq<string>, ticks: nat)
    requires pid < 0x1_0000_0000
    requires 2 + |fields| >= 22 && fields[22 - 3] == Decimal(ticks)
    requires forall i | 0 <= i < |fields| :: PlainField(fields[i])
    ensures ParseStartTicks(StatLine(pid, comm, fields), pid) ==
            if 0 < ticks < 0x1_0000_0000_0000_0000 then Some(ticks) else None
    ensures forall other: nat | other != pid :: ParseStartTicks(StatLine(pid, comm, fields), other) == None
  {
    hide WhiteSpace, FromDecimal, Decimal, Words, Find, FindLast, Trim, StatLine, SpacedFields, ParseUnsigned;
    StatLineParts(pid, comm, fields);
    FieldsAreWords(fields);
    DecimalIsDigits(pid);
    TrimTrailingSpace(Decimal(pid));
    ParseDecimal(pid, U32_MAX);
    ParseDecimal(ticks, U64_MAX);
  }

  /** What the parser finds before the first opening and after the last closing parenthesis. */
  lemma StatLineParts(pid: nat, comm: string, fields: seq<string>)
    requires forall i | 0 <= i < |fields| :: PlainField(fields[i])
    ensures var line := StatLine(pid, comm, fields);
            var open, close := |Decimal(pid)| + 1, |Decimal(pid)| + 2 + |comm|;
            && Find(line, '(') == Some(open) && FindLast(line, ')') == Some(close) && close < |line|
            && line[..open] == Decimal(pid) + " " && line[close + 1..] == SpacedFields(fields)
  {
    hide WhiteSpace, Decimal, Words, Find, FindLast, SpacedFields;
    var line, tail, head := StatLine(pid, comm, fields), SpacedFields(fields), Decimal(pid) + " ";
    DecimalIsDigits(pid);
    FieldsAreWords(fields);
    assert line == head + ['('] + (comm + ")" + tail);
    FirstParenthesis(head, comm + ")" + tail, '(');
    assert line == (head + "(" + comm) + [')'] + tail;
    LastParenthesis(head + "(" + comm, tail, ')');
  }
}
