/** The command tokenizer: a byte loop over quoting states, against a recursive grammar of words. */
module SplitArgs {
  import opened Prelude

  predicate IsSpace(c: char) { c == ' ' || c == '\t' || c == '\n' || c == '\r' }

  /** The bytes a backslash escapes between double quotes. */
  predicate Escapable(c: char) { c == '"' || c == '\\' || c == '$' || c == '`' }

  // ---- The grammar ----

  /** Quoted text up to its closing quote and what follows it; None if the quote never closes. */
  datatype Quoted = Quoted(text: string, rest: string)

  function SingleQuoted(s: string): (r: Option<Quoted>)
    ensures r.Some? ==> |r.value.rest| < |s|
  {
    if s == "" then None
    else if s[0] == '\'' then Some(Quoted("", s[1..]))
    else
      var r := SingleQuoted(s[1..]);
      if r.None? then None else Some(Quoted([s[0]] + r.value.text, r.value.rest))
  }

  function DoubleQuoted(s: string): (r: Option<Quoted>)
    ensures r.Some? ==> |r.value.rest| < |s|
  {
    if s == "" then None
    else if s[0] == '"' then Some(Quoted("", s[1..]))
    else
      var n := if s[0] == '\\' && |s| > 1 && Escapable(s[1]) then 1 else 0;
      var r := DoubleQuoted(s[n + 1..]);
      if r.None? then None else Some(Quoted([s[n]] + r.value.text, r.value.rest))
  }

  /** One word: its text, whether anything made it a word at all, and what follows it. */
  datatype Word = Word(text: string, present: bool, rest: string)

  function Joined(text: string, w: Option<Word>): Option<Word> {
    if w.None? then None else Some(Word(text + w.value.text, true, w.value.rest))
  }

  /** A word is a run of quoted pieces, escapes and plain bytes, up to unquoted space or the end. */
  function WordAt(s: string): (r: Option<Word>)
    ensures r.Some? ==> |r.value.rest| <= |s| && (r.value.rest == "" || IsSpace(r.value.rest[0]))
    decreases |s|
  {
    if s == "" || IsSpace(s[0]) then Some(Word("", false, s))
    else if s[0] == '\'' then
      var q := SingleQuoted(s[1..]);
      if q.None? then None else Joined(q.value.text, WordAt(q.value.rest))
    else if s[0] == '"' then
      var q := DoubleQuoted(s[1..]);
      if q.None? then None else Joined(q.value.text, WordAt(q.value.rest))
    else if s[0] == '\\' then
      if |s| == 1 then Some(Word("", false, ""))
      else Joined([s[1]], WordAt(s[2..]))
    else Joined([s[0]], WordAt(s[1..]))
  }

  function Present(w: Word): seq<string> {
    if w.present then [w.text] else []
  }

  /** The arguments of a command, or None if it ends inside quotes. */
  function Split(s: string): Option<seq<string>>
    decreases |s|
  {
    var w := WordAt(s);
    if w.None? then None
    else if w.value.rest == "" then Some(Present(w.value))
    else
      var more := Split(w.value.rest[1..]);
      if more.None? then None else Some(Present(w.value) + more.value)
  }

  // ---- The loop ----

  /** What the loop still owes at a point outside quotes: the word begun so far, then the rest. */
  function Resume(args: seq<string>, cur: string, hasToken: bool, s: string): Option<seq<string>> {
    var w := WordAt(s);
    if w.None? then None else
    var word := Word(cur + w.value.text, hasToken || w.value.present, w.value.rest);
    if word.rest == "" then Some(args + Present(word))
    else
      var more := Split(word.rest[1..]);
      if more.None? then None else Some(args + Present(word) + more.value)
  }

  function ResumeQuoted(args: seq<string>, cur: string, q: Option<Quoted>): Option<seq<string>> {
    if q.None? then None else Resume(args, cur + q.value.text, true, q.value.rest)
  }

  lemma ResumeStart(s: string)
    ensures Resume([], "", false, s) == Split(s)
  {
    var w := WordAt(s);
    if w.Some? {
      assert "" + w.value.text == w.value.text;
      assert [] + Present(w.value) == Present(w.value);
    }
  }

  lemma ResumeFlush(args: seq<string>, cur: string, hasToken: bool, s: string)
    requires s != "" && IsSpace(s[0]) && (!hasToken ==> cur == "")
    ensures Resume(args, cur, hasToken, s) == Resume(args + (if hasToken then [cur] else []), "", false, s[1..])
  {
    assert cur + "" == cur;
    var w := WordAt(s[1..]);
    if w.Some? {
      assert "" + w.value.text == w.value.text;
      var a, p := args + (if hasToken then [cur] else []), Present(w.value);
      if w.value.rest != "" && Split(w.value.rest[1..]).Some? {
        var m := Split(w.value.rest[1..]).value;
        assert a + (p + m) == a + p + m;
      }
    }
  }

  lemma ResumeJoined(args: seq<string>, cur: string, hasToken: bool, s: string, text: string, rest: string)
    requires WordAt(s) == Joined(text, WordAt(rest))
    ensures Resume(args, cur, hasToken, s) == Resume(args, cur + text, true, rest)
  {
    var w := WordAt(rest);
    if w.Some? {
      assert cur + (text + w.value.text) == (cur + text) + w.value.text;
    }
  }

  lemma ResumeQuote(args: seq<string>, cur: string, hasToken: bool, s: string)
    requires s != "" && (s[0] == '\'' || s[0] == '"')
    ensures Resume(args, cur, hasToken, s)
         == ResumeQuoted(args, cur, if s[0] == '\'' then SingleQuoted(s[1..]) else DoubleQuoted(s[1..]))
  {
    var q := if s[0] == '\'' then SingleQuoted(s[1..]) else DoubleQuoted(s[1..]);
    if q.Some? {
      ResumeJoined(args, cur, hasToken, s, q.value.text, q.value.rest);
    }
  }

  lemma ResumeQuotedStep(args: seq<string>, cur: string, c: char, q: Option<Quoted>)
    ensures ResumeQuoted(args, cur, if q.None? then None else Some(Quoted([c] + q.value.text, q.value.rest)))
         == ResumeQuoted(args, cur + [c], q)
  {
    if q.Some? {
      assert cur + ([c] + q.value.text) == (cur + [c]) + q.value.text;
    }
  }

  lemma ResumeQuotedEnd(args: seq<string>, cur: string, rest: string)
    ensures ResumeQuoted(args, cur, Some(Quoted("", rest))) == Resume(args, cur, true, rest)
  {
    assert cur + "" == cur;
  }

  lemma ResumeEnd(args: seq<string>, cur: string, hasToken: bool)
    ensures Resume(args, cur, hasToken, "") == Some(if hasToken then args + [cur] else args)
  {
    assert cur + "" == cur;
    assert args + [] == args;
  }

  // ---- One byte of the loop ----

  lemma InSingleStep(args: seq<string>, cur: string, t: string)
    requires t != ""
    ensures ResumeQuoted(args, cur, SingleQuoted(t)) ==
      if t[0] == '\'' then Resume(args, cur, true, t[1..]) else ResumeQuoted(args, cur + [t[0]], SingleQuoted(t[1..]))
  {
    if t[0] == '\'' {
      ResumeQuotedEnd(args, cur, t[1..]);
    } else {
      ResumeQuotedStep(args, cur, t[0], SingleQuoted(t[1..]));
    }
  }

  lemma InDoubleStep(args: seq<string>, cur: string, t: string)
    requires t != ""
    ensures ResumeQuoted(args, cur, DoubleQuoted(t)) ==
      if t[0] == '"' then Resume(args, cur, true, t[1..])
      else if t[0] == '\\' && |t| > 1 && Escapable(t[1]) then ResumeQuoted(args, cur + [t[1]], DoubleQuoted(t[2..]))
      else ResumeQuoted(args, cur + [t[0]], DoubleQuoted(t[1..]))
  {
    if t[0] == '"' {
      ResumeQuotedEnd(args, cur, t[1..]);
    } else if t[0] == '\\' && |t| > 1 && Escapable(t[1]) {
      ResumeQuotedStep(args, cur, t[1], DoubleQuoted(t[2..]));
    } else {
      ResumeQuotedStep(args, cur, t[0], DoubleQuoted(t[1..]));
    }
  }

  lemma EscapeStep(args: seq<string>, cur: string, hasToken: bool, t: string)
    requires t != "" && t[0] == '\\'
    ensures Resume(args, cur, hasToken, t)
         == if |t| > 1 then Resume(args, cur + [t[1]], true, t[2..]) else Resume(args, cur, hasToken, "")
  {
    if |t| > 1 {
      ResumeJoined(args, cur, hasToken, t, [t[1]], t[2..]);
    }
  }

  lemma SpaceStep(args: seq<string>, cur: string, hasToken: bool, t: string)
    requires t != "" && IsSpace(t[0]) && (!hasToken ==> cur == "")
    ensures Resume(args, cur, hasToken, t)
         == if hasToken then Resume(args + [cur], "", false, t[1..]) else Resume(args, cur, hasToken, t[1..])
  {
    ResumeFlush(args, cur, hasToken, t);
    assert args + [] == args;
  }

  lemma Advances(s: string, i: nat)
    requires i < |s|
    ensures s[i..] != "" && s[i..][0] == s[i] && s[i..][1..] == s[i + 1..]
    ensures i + 1 < |s| ==> s[i..][1] == s[i + 1] && s[i..][2..] == s[i + 2..]
    ensures i + 1 == |s| ==> s[i + 1..] == ""
  {
  }

  /** What is left to do in the loop's state. */
  ghost function Left(args: seq<string>, cur: string, hasToken: bool, inSingle: bool, inDouble: bool,
      t: string): Option<seq<string>> {
    if inSingle then ResumeQuoted(args, cur, SingleQuoted(t))
    else if inDouble then ResumeQuoted(args, cur, DoubleQuoted(t))
    else Resume(args, cur, hasToken, t)
  }

  /** The loop of the runtime: one pass over the bytes, equal on every input to the grammar. */
  method SplitArgs(s: string) returns (r: Option<seq<string>>)
    ensures r == Split(s)
  {
    var args: seq<string> := [];
    var cur := "";
    var inSingle, inDouble, hasToken := false, false, false;
    var i := 0;
    ResumeStart(s);
    assert s[0..] == s;
    while i < |s|
      invariant 0 <= i <= |s| && !(inSingle && inDouble)
      invariant !hasToken ==> cur == "" && !inSingle && !inDouble
      invariant Split(s) == Left(args, cur, hasToken, inSingle, inDouble, s[i..])
    {
      var c := s[i];
      ghost var t := s[i..];
      Advances(s, i);
      if inSingle {
        InSingleStep(args, cur, t);
        if c == '\'' {
          inSingle := false;
        } else {
          cur := cur + [c];
        }
      } else if inDouble {
        InDoubleStep(args, cur, t);
        if c == '"' {
          inDouble := false;
        } else if c == '\\' && i + 1 < |s| && Escapable(s[i + 1]) {
          i := i + 1;
          cur := cur + [s[i]];
        } else {
          cur := cur + [c];
        }
      } else if c == '\'' {
        ResumeQuote(args, cur, hasToken, t);
        inSingle, hasToken := true, true;
      } else if c == '"' {
        ResumeQuote(args, cur, hasToken, t);
        inDouble, hasToken := true, true;
      } else if c == '\\' {
        EscapeStep(args, cur, hasToken, t);
        if i + 1 < |s| {
          i := i + 1;
          cur := cur + [s[i]];
          hasToken := true;
        }
      } else if IsSpace(c) {
        SpaceStep(args, cur, hasToken, t);
        if hasToken {
          args, cur, hasToken := args + [cur], "", false;
        }
      } else {
        ResumeJoined(args, cur, hasToken, t, [c], t[1..]);
        cur := cur + [c];
        hasToken := true;
      }
      i := i + 1;
    }
    assert s[i..] == "";
    if inSingle || inDouble {
      return None;
    }
    ResumeEnd(args, cur, hasToken);
    if hasToken {
      args := args + [cur];
    }
    return Some(args);
  }

  // ---- When it fails ----

  datatype Mode = Plain | InSingle | InDouble

  /** The quoting state at the end of s, started in mode m. */
  function EndMode(s: string, m: Mode): Mode
    decreases |s|
  {
    if s == "" then m else
    match m
    case InSingle => EndMode(s[1..], if s[0] == '\'' then Plain else InSingle)
    case InDouble =>
      if s[0] == '\\' && |s| > 1 && Escapable(s[1]) then EndMode(s[2..], InDouble)
      else EndMode(s[1..], if s[0] == '"' then Plain else InDouble)
    case Plain =>
      if s[0] == '\\' && |s| > 1 then EndMode(s[2..], Plain)
      else EndMode(s[1..], if s[0] == '\'' then InSingle else if s[0] == '"' then InDouble else Plain)
  }

  lemma {:induction false} SingleEnds(s: string)
    ensures SingleQuoted(s).None? ==> EndMode(s, InSingle) == InSingle
    ensures SingleQuoted(s).Some? ==> EndMode(s, InSingle) == EndMode(SingleQuoted(s).value.rest, Plain)
  {
    if s != "" && s[0] != '\'' {
      SingleEnds(s[1..]);
    }
  }

  lemma {:induction false} DoubleEnds(s: string)
    ensures DoubleQuoted(s).None? ==> EndMode(s, InDouble) == InDouble
    ensures DoubleQuoted(s).Some? ==> EndMode(s, InDouble) == EndMode(DoubleQuoted(s).value.rest, Plain)
  {
    if s != "" && s[0] != '"' {
      if s[0] == '\\' && |s| > 1 && Escapable(s[1]) {
        DoubleEnds(s[2..]);
      } else {
        DoubleEnds(s[1..]);
      }
    }
  }

  lemma {:induction false} WordEnds(s: string)
    ensures WordAt(s).None? ==> EndMode(s, Plain) != Plain
    ensures WordAt(s).Some? ==> EndMode(s, Plain) == EndMode(WordAt(s).value.rest, Plain)
    decreases |s|
  {
    if s != "" && !IsSpace(s[0]) {
      if s[0] == '\'' {
        SingleEnds(s[1..]);
        if SingleQuoted(s[1..]).Some? { WordEnds(SingleQuoted(s[1..]).value.rest); }
      } else if s[0] == '"' {
        DoubleEnds(s[1..]);
        if DoubleQuoted(s[1..]).Some? { WordEnds(DoubleQuoted(s[1..]).value.rest); }
      } else if s[0] == '\\' {
        if |s| > 1 { WordEnds(s[2..]); } else { assert s[1..] == ""; }
      } else {
        WordEnds(s[1..]);
      }
    }
  }

  /** Splitting fails exactly when the input ends inside quotes. */
  lemma {:induction false} FailsExactlyInsideQuotes(s: string)
    ensures Split(s).None? <==> EndMode(s, Plain) != Plain
    decreases |s|
  {
    WordEnds(s);
    var w := WordAt(s);
    if w.Some? && w.value.rest != "" {
      FailsExactlyInsideQuotes(w.value.rest[1..]);
    }
  }

  // ---- Quoting and splitting ----

  /** Single-quoted text; a quote inside it closes, is escaped, and reopens. */
  function QuoteBody(w: string): string {
    if w == "" then ""
    else (if w[0] == '\'' then "'\\''" else [w[0]]) + QuoteBody(w[1..])
  }

  function Quote(w: string): string { "'" + QuoteBody(w) + "'" }

  function QuoteAll(args: seq<string>): string {
    if args == [] then ""
    else if |args| == 1 then Quote(args[0])
    else Quote(args[0]) + " " + QuoteAll(args[1..])
  }

  lemma EscapedQuoteReads(tail: string, w: string, rest: string)
    requires var q := SingleQuoted(tail);
      q.Some? && Joined(q.value.text, WordAt(q.value.rest)) == Some(Word(w, true, rest))
    ensures var q := SingleQuoted("'\\''" + tail);
      q.Some? && Joined(q.value.text, WordAt(q.value.rest)) == Some(Word("'" + w, true, rest))
  {
    var s := "'\\''" + tail;
    var s1 := s[1..];
    assert s1 == "\\''" + tail && s1[0] == '\\' && s1[1] == '\'';
    var s3 := s1[2..];
    assert s3 == "'" + tail && s3[0] == '\'' && s3[1..] == tail;
    assert WordAt(s3) == Some(Word(w, true, rest));
    assert WordAt(s1) == Joined([s1[1]], WordAt(s3));
    assert [s1[1]] + w == "'" + w;
    assert SingleQuoted(s) == Some(Quoted("", s1));
    assert "" + ("'" + w) == "'" + w;
  }

  lemma PlainByteReads(c: char, tail: string, w: string, rest: string)
    requires c != '\''
    requires var q := SingleQuoted(tail);
      q.Some? && Joined(q.value.text, WordAt(q.value.rest)) == Some(Word(w, true, rest))
    ensures var q := SingleQuoted([c] + tail);
      q.Some? && Joined(q.value.text, WordAt(q.value.rest)) == Some(Word([c] + w, true, rest))
  {
    assert ([c] + tail)[1..] == tail;
    var q := SingleQuoted(tail).value;
    var t := WordAt(q.rest).value.text;
    assert ([c] + q.text) + t == [c] + (q.text + t);
  }

  lemma Regroup(a: string, b: string, rest: string)
    ensures (a + b) + "'" + rest == a + (b + "'" + rest)
  {
  }

  lemma ClosedAtOnce(rest: string)
    requires rest == "" || IsSpace(rest[0])
    ensures SingleQuoted("'" + rest) == Some(Quoted("", rest)) && WordAt(rest) == Some(Word("", false, rest))
  {
    assert ("'" + rest)[1..] == rest;
  }

  /** Inside single quotes, the body of w and its closing quote read as w. */
  lemma {:induction false} QuotedReads(w: string, rest: string)
    requires rest == "" || IsSpace(rest[0])
    ensures var q := SingleQuoted(QuoteBody(w) + "'" + rest);
      q.Some? && Joined(q.value.text, WordAt(q.value.rest)) == Some(Word(w, true, rest))
  {
    var s := QuoteBody(w) + "'" + rest;
    if w == "" {
      ClosedAtOnce(rest);
      assert s == "'" + rest;
      assert "" + "" == w;
    } else {
      var tail := QuoteBody(w[1..]) + "'" + rest;
      QuotedReads(w[1..], rest);
      assert [w[0]] + w[1..] == w;
      if w[0] == '\'' {
        EscapedQuoteReads(tail, w[1..], rest);
        Regroup("'\\''", QuoteBody(w[1..]), rest);
      } else {
        PlainByteReads(w[0], tail, w[1..], rest);
        Regroup([w[0]], QuoteBody(w[1..]), rest);
      }
    }
  }

  lemma QuoteReads(w: string, rest: string)
    requires rest == "" || IsSpace(rest[0])
    ensures WordAt(Quote(w) + rest) == Some(Word(w, true, rest))
  {
    var s := Quote(w) + rest;
    assert s[1..] == QuoteBody(w) + "'" + rest;
    QuotedReads(w, rest);
  }

  lemma SplitFirst(w: string, more: string)
    requires Split(more).Some?
    ensures Split(Quote(w) + (" " + more)) == Some([w] + Split(more).value)
  {
    var rest := " " + more;
    QuoteReads(w, rest);
    assert rest[1..] == more;
  }

  /** Splitting undoes quoting, for every list of byte strings. */
  lemma {:induction false} SplitUndoesQuoting(args: seq<string>)
    ensures Split(QuoteAll(args)) == Some(args)
  {
    if |args| == 1 {
      assert Quote(args[0]) + "" == Quote(args[0]);
      QuoteReads(args[0], "");
      assert [args[0]] == args;
    } else if args != [] {
      SplitUndoesQuoting(args[1..]);
      SplitFirst(args[0], QuoteAll(args[1..]));
      assert QuoteAll(args) == Quote(args[0]) + (" " + QuoteAll(args[1..]));
      assert [args[0]] + args[1..] == args;
    }
  }
}
