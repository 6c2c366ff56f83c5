/**
 Label values of the Prometheus text format 0.0.4: three sequential replacements are a
 one-pass escape, and a reader of the quoted label gets the value back.
 */
module LabelEscapes {
  import opened Outcomes

  /** Every occurrence of `c` replaced by `with`. */
  function ReplaceChar(s: string, c: char, with: string): string {
    if |s| == 0 then "" else (if s[0] == c then with else [s[0]]) + ReplaceChar(s[1..], c, with)
  }

  /** `escape_label`. */
  function EscapeLabel(value: string): string {
    ReplaceChar(ReplaceChar(ReplaceChar(value, '\\', "\\\\"), '"', "\\\""), '\n', "\\n")
  }

  function EscapeChar(c: char): string {
    if c == '\\' then "\\\\" else if c == '"' then "\\\"" else if c == '\n' then "\\n" else [c]
  }

  function EscapeOnce(value: string): string {
    if |value| == 0 then "" else EscapeChar(value[0]) + EscapeOnce(value[1..])
  }

  /** What a reader makes of the text after an opening quote: the value and what follows the closing quote. */
  function ReadLabel(s: string): Option<(string, string)> {
    if |s| == 0 || s[0] == '\n' then None
    else if s[0] == '"' then Some(("", s[1..]))
    else if s[0] != '\\' then Prepend(s[0], ReadLabel(s[1..]))
    else if |s| == 1 then None
    else if s[1] == '\\' || s[1] == '"' then Prepend(s[1], ReadLabel(s[2..]))
    else if s[1] == 'n' then Prepend('\n', ReadLabel(s[2..]))
    else None
  }

  function Prepend(c: char, r: Option<(string, string)>): Option<(string, string)> {
    if r.None? then None else Some(([c] + r.value.0, r.value.1))
  }

  lemma {:induction false} ReplaceDistributes(a: string, b: string, c: char, with: string)
    ensures ReplaceChar(a + b, c, with) == ReplaceChar(a, c, with) + ReplaceChar(b, c, with)
  {
    if |a| == 0 {
      assert a + b == b;
    } else {
      assert (a + b)[1..] == a[1..] + b;
      ReplaceDistributes(a[1..], b, c, with);
    }
  }

  lemma ReplaceOne(x: char, c: char, with: string)
    ensures ReplaceChar([x], c, with) == if x == c then with else [x]
  {
    assert [x][1..] == "";
  }

  lemma ReplaceTwo(x: char, y: char, c: char, with: string)
    ensures ReplaceChar([x, y], c, with) == (if x == c then with else [x]) + (if y == c then with else [y])
  {
    assert [x, y][1..] == [y];
    ReplaceOne(y, c, with);
  }

  /** The later replacements never touch what the earlier ones produced. */
  lemma EscapeLabelOfChar(c: char)
    ensures EscapeLabel([c]) == EscapeChar(c)
  {
    ReplaceOne(c, '\\', "\\\\");
    if c == '\\' {
      ReplaceTwo('\\', '\\', '"', "\\\"");
      ReplaceTwo('\\', '\\', '\n', "\\n");
    } else {
      ReplaceOne(c, '"', "\\\"");
      ReplaceOne(c, '\n', "\\n");
      ReplaceTwo('\\', '"', '\n', "\\n");
    }
  }

  lemma {:induction false} EscapeLabelDistributes(a: string, b: string)
    ensures EscapeLabel(a + b) == EscapeLabel(a) + EscapeLabel(b)
  {
    ReplaceDistributes(a, b, '\\', "\\\\");
    var a1, b1 := ReplaceChar(a, '\\', "\\\\"), ReplaceChar(b, '\\', "\\\\");
    ReplaceDistributes(a1, b1, '"', "\\\"");
    var a2, b2 := ReplaceChar(a1, '"', "\\\""), ReplaceChar(b1, '"', "\\\"");
    ReplaceDistributes(a2, b2, '\n', "\\n");
  }

  /** The three sequential replacements are the one-pass escape. */
  lemma {:induction false} EscapeIsOnePass(value: string)
    ensures EscapeLabel(value) == EscapeOnce(value)
  {
    if |value| > 0 {
      var first, rest := [value[0]], value[1..];
      assert value == first + rest;
      EscapeLabelDistributes(first, rest);
      EscapeLabelOfChar(value[0]);
      EscapeIsOnePass(rest);
    }
  }

  /**
   Whatever a label contains, the text after its opening quote reads back as exactly
   that label, up to exactly the closing quote; so no bare quote or newline is left.
   */
  lemma {:induction false} LabelReadsBack(value: string, rest: string)
    ensures ReadLabel(EscapeLabel(value) + "\"" + rest) == Some((value, rest))
    ensures '\n' !in EscapeLabel(value)
  {
    EscapeIsOnePass(value);
    OnePassReadsBack(value, rest);
  }

  lemma {:induction false} OnePassReadsBack(value: string, rest: string)
    ensures ReadLabel(EscapeOnce(value) + "\"" + rest) == Some((value, rest))
    ensures '\n' !in EscapeOnce(value)
  {
    if |value| == 0 {
      assert ("\"" + rest)[1..] == rest;
      assert EscapeOnce(value) + "\"" + rest == "\"" + rest;
    } else {
      var head, tail := EscapeChar(value[0]), EscapeOnce(value[1..]) + "\"" + rest;
      OnePassReadsBack(value[1..], rest);
      var all := EscapeOnce(value) + "\"" + rest;
      assert all == head + tail;
      assert all[|head|..] == tail;
      assert [value[0]] + value[1..] == value;
    }
  }

  /** Distinct labels never render alike. */
  lemma {:induction false} EscapeIsInjective(a: string, b: string)
    requires EscapeLabel(a) == EscapeLabel(b)
    ensures a == b
  {
    LabelReadsBack(a, "");
    LabelReadsBack(b, "");
  }
}
