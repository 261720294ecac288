/**
 * Errors as the bindings see them: a displayed message and an optional source error, and the
 * text `stringify_error_chain` makes of such a chain, one line per error.
 */
module ErrorChain {
  import opened Wrappers

  /** An error's `Display` text and its `source()`. */
  datatype ErrorValue = ErrorValue(message: string, source: Option<ErrorValue>)

  const ERROR_PREFIX: string := "Error: "
  const CAUSE_PREFIX: string := "Caused by: "

  /** The messages of the errors below `e`, nearest cause first. */
  function Causes(e: ErrorValue): seq<string>
  {
    CausesFrom(e.source)
  }

  function CausesFrom(source: Option<ErrorValue>): seq<string>
  {
    match source
    case None => []
    case Some(src) => [src.message] + CausesFrom(src.source)
  }

  /** The line written for the top error. */
  function FirstLine(e: ErrorValue): string
  {
    ERROR_PREFIX + e.message + "\n"
  }

  /** The lines written for a list of causes, in order. */
  function CauseLines(causes: seq<string>): string
  {
    if causes == [] then "" else CAUSE_PREFIX + causes[0] + "\n" + CauseLines(causes[1..])
  }

  /** The text of a whole chain. */
  function ChainText(e: ErrorValue): string
  {
    FirstLine(e) + CauseLines(Causes(e))
  }

  /** `stringify_error_chain`: walk the source chain, appending one line per cause. */
  method StringifyErrorChain(error: ErrorValue) returns (result: string)
    ensures result == ChainText(error)
  {
    result := ERROR_PREFIX + error.message + "\n";
    var source := error.source;
    while source.Some?
      invariant result + CauseLines(CausesFrom(source)) == ChainText(error)
      decreases source
    {
      var src := source.value;
      CauseLinesCons(src.message, CausesFrom(src.source));
      result := result + (CAUSE_PREFIX + src.message + "\n");
      source := src.source;
    }
  }

  lemma CauseLinesCons(cause: string, rest: seq<string>)
    ensures CauseLines([cause] + rest) == CAUSE_PREFIX + cause + "\n" + CauseLines(rest)
  {
    assert ([cause] + rest)[1..] == rest;
  }

  // ------------------------------------------------------------------ properties of the text

  /** The text starts with the top error's line. */
  lemma ChainTextStartsWithFirstLine(e: ErrorValue)
    ensures |FirstLine(e)| <= |ChainText(e)|
    ensures ChainText(e)[..|FirstLine(e)|] == ERROR_PREFIX + e.message + "\n"
  {
  }

  /** An error without a source is exactly its first line. */
  lemma NoSourceIsFirstLine(e: ErrorValue)
    requires e.source.None?
    ensures ChainText(e) == ERROR_PREFIX + e.message + "\n"
  {
  }

  /** The number of newlines in a string. */
  function NewlineCount(s: string): nat
  {
    if s == [] then 0 else (if s[0] == '\n' then 1 else 0) + NewlineCount(s[1..])
  }

  lemma {:induction false} NewlineCountAppend(a: string, b: string)
    ensures NewlineCount(a + b) == NewlineCount(a) + NewlineCount(b)
  {
    if a != [] {
      assert (a + b)[0] == a[0];
      assert (a + b)[1..] == a[1..] + b;
      NewlineCountAppend(a[1..], b);
    } else {
      assert a + b == b;
    }
  }

  lemma {:induction false} NewlineFreeCount(s: string)
    requires '\n' !in s
    ensures NewlineCount(s) == 0
  {
    if s != [] {
      NewlineFreeCount(s[1..]);
    }
  }

  /** A newline-terminated line of newline-free text holds exactly one newline. */
  lemma LineCount(prefix: string, message: string)
    requires '\n' !in prefix && '\n' !in message
    ensures NewlineCount(prefix + message + "\n") == 1
  {
    NewlineCountAppend(prefix + message, "\n");
    NewlineCountAppend(prefix, message);
    NewlineFreeCount(prefix);
    NewlineFreeCount(message);
  }

  /** Every error message of the chain is free of newlines. */
  ghost predicate SingleLineMessages(e: ErrorValue)
  {
    '\n' !in e.message && forall i :: 0 <= i < |Causes(e)| ==> '\n' !in Causes(e)[i]
  }

  lemma {:induction false} CauseLinesCount(causes: seq<string>)
    requires forall i :: 0 <= i < |causes| ==> '\n' !in causes[i]
    ensures NewlineCount(CauseLines(causes)) == |causes|
  {
    if causes != [] {
      CauseLinesCount(causes[1..]);
      LineCount(CAUSE_PREFIX, causes[0]);
      NewlineCountAppend(CAUSE_PREFIX + causes[0] + "\n", CauseLines(causes[1..]));
    }
  }

  /** With single-line messages, the text has one line for the error plus one per cause. */
  lemma ChainTextLineCount(e: ErrorValue)
    requires SingleLineMessages(e)
    ensures NewlineCount(ChainText(e)) == 1 + |Causes(e)|
  {
    LineCount(ERROR_PREFIX, e.message);
    CauseLinesCount(Causes(e));
    NewlineCountAppend(FirstLine(e), CauseLines(Causes(e)));
  }

  // ------------------------------------------------------------------ reading the text back

  /** The newline-terminated lines of a text (a last unterminated line is kept as it is). */
  function Lines(s: string): seq<string>
    decreases |s|
  {
    if s == [] then []
    else if '\n' !in s then [s]
    else
      var i := IndexOfNewline(s);
      [s[..i]] + Lines(s[i + 1..])
  }

  function IndexOfNewline(s: string): (i: nat)
    requires '\n' in s
    ensures i < |s| && s[i] == '\n' && '\n' !in s[..i]
  {
    if s[0] == '\n' then 0
    else
      assert '\n' in s[1..] by {
        var k :| 0 <= k < |s| && s[k] == '\n';
        assert s[1..][k - 1] == '\n';
      }
      var j := IndexOfNewline(s[1..]);
      assert s[..j + 1] == [s[0]] + s[1..][..j];
      j + 1
  }

  lemma LinesCons(line: string, rest: string)
    requires '\n' !in line
    ensures Lines(line + "\n" + rest) == [line] + Lines(rest)
  {
    var s := line + "\n" + rest;
    assert s[|line|] == '\n';
    assert s[..|line|] == line;
    assert s[|line| + 1..] == rest;
  }

  /** The cause lines read back as one "Caused by: " line per cause, in chain order. */
  lemma {:induction false} CauseLinesRead(causes: seq<string>)
    requires forall i :: 0 <= i < |causes| ==> '\n' !in causes[i]
    ensures Lines(CauseLines(causes)) == seq(|causes|, i requires 0 <= i < |causes| => CAUSE_PREFIX + causes[i])
  {
    if causes != [] {
      CauseLinesRead(causes[1..]);
      assert '\n' !in CAUSE_PREFIX + causes[0] by {
        assert '\n' !in causes[0];
      }
      assert CAUSE_PREFIX + causes[0] + "\n" + CauseLines(causes[1..]) == (CAUSE_PREFIX + causes[0]) + "\n" + CauseLines(causes[1..]);
      LinesCons(CAUSE_PREFIX + causes[0], CauseLines(causes[1..]));
    }
  }

  /**
   * With single-line messages, the text splits into the error's line followed by one
   * "Caused by: " line per cause, in chain order: the chain can be read back from its text.
   */
  lemma ChainTextLines(e: ErrorValue)
    requires SingleLineMessages(e)
    ensures Lines(ChainText(e)) ==
      [ERROR_PREFIX + e.message] + seq(|Causes(e)|, i requires 0 <= i < |Causes(e)| => CAUSE_PREFIX + Causes(e)[i])
  {
    assert '\n' !in ERROR_PREFIX + e.message;
    assert ChainText(e) == (ERROR_PREFIX + e.message) + "\n" + CauseLines(Causes(e));
    LinesCons(ERROR_PREFIX + e.message, CauseLines(Causes(e)));
    CauseLinesRead(Causes(e));
  }
}
