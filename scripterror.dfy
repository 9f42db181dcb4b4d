/** The error record of the calculated-field language (CalculatedField/ScriptError.cs): a
    position and a description, fixed when the error is made, and the message shown for it. The C#
    class has only read-only fields, so it is a value here. */
module CalcScriptError {
  import opened Wrappers

  /** The description is a C# string, so it may be null (None). */
  datatype ScriptError = ScriptError(column: int, line: int, description: Option<string>)

  /** The constructor: it takes the column before the line and stores all three unchanged. */
  function NewScriptError(column: int, line: int, description: Option<string>): (e: ScriptError)
    ensures e.column == column && e.line == line && e.description == description
  {
    ScriptError(column, line, description)
  }

  // ---------------------------------------------------------------------------------------------
  // Decimal text of an int (int.ToString with a "-" sign)

  function Digit(d: int): char
    requires 0 <= d < 10
  {
    "0123456789"[d]
  }

  function NatText(n: nat): (r: string)
    ensures |r| > 0 && forall k | 0 <= k < |r| :: '0' <= r[k] <= '9'
  {
    if n < 10 then [Digit(n)] else NatText(n / 10) + [Digit(n % 10)]
  }

  function IntText(n: int): (r: string)
    ensures forall k | 0 <= k < |r| :: r[k] == '-' || '0' <= r[k] <= '9'
  {
    if n < 0 then "-" + NatText(-n) else NatText(n)
  }

  /** The value of a run of decimal digits. */
  function DigitsValue(s: string): nat
    requires forall k | 0 <= k < |s| :: '0' <= s[k] <= '9'
  {
    if s == [] then 0 else 10 * DigitsValue(s[..|s| - 1]) + (s[|s| - 1] - '0') as int
  }

  lemma {:induction false} NatTextValue(n: nat)
    ensures DigitsValue(NatText(n)) == n
  {
    if n >= 10 {
      NatTextValue(n / 10);
      var r := NatText(n);
      assert r[..|r| - 1] == NatText(n / 10);
    }
  }

  lemma NatTextInjective(a: nat, b: nat)
    requires NatText(a) == NatText(b)
    ensures a == b
  {
    NatTextValue(a);
    NatTextValue(b);
  }

  lemma IntTextSign(n: int)
    ensures |IntText(n)| > 0 && (IntText(n)[0] == '-' <==> n < 0)
  {
  }

  /** Different ints have different texts: a sign shows a negative number, and the digits read
      back as the magnitude. */
  lemma IntTextInjective(n: int, m: int)
    requires IntText(n) == IntText(m)
    ensures n == m
  {
    IntTextSign(n);
    IntTextSign(m);
    if n < 0 && m < 0 {
      var a, b := NatText(-n), NatText(-m);
      assert a == ("-" + a)[1..] == ("-" + b)[1..] == b;
      NatTextInjective(-n, -m);
    } else if n >= 0 && m >= 0 {
      NatTextInjective(n, m);
    }
  }

  // ---------------------------------------------------------------------------------------------
  // Message

  /** How String.Format shows a string argument: a null string as "". */
  function FormatText(s: Option<string>): string {
    if s.None? then "" else s.value
  }

  /** Message: String.Format("({0}, {1}): {2}", Line, Column, Description). */
  function Message(e: ScriptError): string {
    "(" + (IntText(e.line) + (", " + (IntText(e.column) + ("): " + FormatText(e.description)))))
  }

  lemma SeparatorPosition(a: string, sep: char, x: string)
    requires forall k | 0 <= k < |a| :: a[k] != sep
    ensures (a + [sep] + x)[|a|] == sep
    ensures forall k | 0 <= k < |a| :: (a + [sep] + x)[k] != sep
  {
  }

  /** `a + [sep] + x == b + [sep] + y` splits the same way when neither `a` nor `b` holds `sep`. */
  lemma SplitAtSeparator(a: string, b: string, sep: char, x: string, y: string)
    requires forall k | 0 <= k < |a| :: a[k] != sep
    requires forall k | 0 <= k < |b| :: b[k] != sep
    requires a + [sep] + x == b + [sep] + y
    ensures a == b && x == y
  {
    SeparatorPosition(a, sep, x);
    SeparatorPosition(b, sep, y);
    if |a| == |b| {
      assert a == (a + [sep] + x)[..|a|];
      assert b == (b + [sep] + y)[..|b|];
      assert x == (a + [sep] + x)[|a| + 1..];
      assert y == (b + [sep] + y)[|b| + 1..];
    }
  }

  /** What follows the line's comma in the message. */
  function AfterLine(e: ScriptError): string {
    " " + (IntText(e.column) + ("): " + FormatText(e.description)))
  }

  lemma MessageSplits(e: ScriptError)
    ensures Message(e)[1..] == IntText(e.line) + [','] + AfterLine(e)
    ensures AfterLine(e)[1..] == IntText(e.column) + [')'] + (": " + FormatText(e.description))
    ensures FormatText(e.description) == (": " + FormatText(e.description))[2..]
  {
  }

  /** The message starts with the line, then the column, then the description, although the
      constructor takes the column first: error (column 1, line 2, "x") reads "(2, 1): x". */
  lemma MessageOrder()
    ensures Message(NewScriptError(1, 2, Some("x"))) == "(2, 1): x"
  {
  }

  /** A message shows every field: two errors with the same message have the same line, column
      and printed description, and are the same error unless one description is null and the
      other empty (see NullDescriptionLooksEmpty). */
  lemma MessageDeterminesError(e1: ScriptError, e2: ScriptError)
    requires Message(e1) == Message(e2)
    ensures e1.line == e2.line && e1.column == e2.column
    ensures FormatText(e1.description) == FormatText(e2.description)
    ensures e1 != e2 ==> {e1.description, e2.description} == {None, Some("")}
  {
    MessageSplits(e1);
    MessageSplits(e2);
    SplitAtSeparator(IntText(e1.line), IntText(e2.line), ',', AfterLine(e1), AfterLine(e2));
    SplitAtSeparator(IntText(e1.column), IntText(e2.column), ')', ": " + FormatText(e1.description), ": " + FormatText(e2.description));
    IntTextInjective(e1.line, e2.line);
    IntTextInjective(e1.column, e2.column);
  }

  /** A null description prints as "", so an error with a null description and one with an empty
      description differ but show the same message. */
  lemma NullDescriptionLooksEmpty(column: int, line: int)
    ensures NewScriptError(column, line, None) != NewScriptError(column, line, Some(""))
    ensures Message(NewScriptError(column, line, None)) == Message(NewScriptError(column, line, Some("")))
  {
  }
}
