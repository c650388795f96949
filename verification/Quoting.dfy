/** Every way of writing words down, with quotes, escapes and none, joined and separated at will, is read back. */
module Quoting {
  import opened Prelude
  import opened SplitArgs

  datatype Style = Bare | Single | Double | Escaped

  /** Part of a word, written in one style. */
  datatype Piece = Piece(style: Style, text: string)

  /** A byte that stands for itself outside quotes. */
  predicate IsBare(c: char) {
    c !in {'\'', '"', '\\', ' ', '\t', '\n', '\r'}
  }

  /** What can be written in a style: only quotes can hold nothing, and single quotes no single quote. */
  ghost predicate Fits(p: Piece) {
    match p.style
    case Bare => p.text != "" && forall c <- p.text :: IsBare(c)
    case Single => '\'' !in p.text
    case Double => true
    case Escaped => p.text != ""
  }

  /** A backslash before each byte that keep is true of. */
  function Backslashed(s: string, these: char -> bool): string {
    if s == "" then "" else (if these(s[0]) then ['\\', s[0]] else [s[0]]) + Backslashed(s[1..], these)
  }

  predicate Any(c: char) { true }

  /** What would mean something between double quotes. */
  predicate Special(c: char) { c in {'"', '\\', '$', '`'} }

  function Written(p: Piece): string {
    match p.style
    case Bare => p.text
    case Single => "'" + p.text + "'"
    case Double => "\"" + Backslashed(p.text, Special) + "\""
    case Escaped => Backslashed(p.text, Any)
  }

  /** The word goes on with text and then as w. */
  ghost predicate Adds(s: string, text: string, rest: string) {
    WordAt(s) == Joined(text, WordAt(rest))
  }

  lemma JoinedTwice(a: string, b: string, rest: string)
    ensures Joined(a, Joined(b, WordAt(rest))) == Joined(a + b, WordAt(rest))
  {
    var w := WordAt(rest);
    if w.Some? {
      assert a + (b + w.value.text) == a + b + w.value.text;
    }
  }

  lemma {:induction false} BareReads(t: string, rest: string)
    requires t != "" && forall c <- t :: IsBare(c)
    ensures Adds(t + rest, t, rest)
  {
    var s := t + rest;
    assert IsBare(t[0]) && s[0] == t[0] && s[1..] == t[1..] + rest;
    assert WordAt(s) == Joined([t[0]], WordAt(s[1..]));
    if |t| == 1 {
      assert t[1..] + rest == rest && t == [t[0]];
    } else {
      BareReads(t[1..], rest);
      JoinedTwice([t[0]], t[1..], rest);
      assert [t[0]] + t[1..] == t;
    }
  }

  lemma {:induction false} EscapedReads(t: string, rest: string)
    requires t != ""
    ensures Adds(Backslashed(t, Any) + rest, t, rest)
  {
    var s := Backslashed(t, Any) + rest;
    var more := Backslashed(t[1..], Any) + rest;
    assert s == ['\\', t[0]] + more;
    assert s[2..] == more;
    assert WordAt(s) == Joined([t[0]], WordAt(more));
    if |t| == 1 {
      assert more == rest && t == [t[0]];
    } else {
      EscapedReads(t[1..], rest);
      JoinedTwice([t[0]], t[1..], rest);
      assert [t[0]] + t[1..] == t;
    }
  }

  lemma {:induction false} SingleReads(t: string, rest: string)
    requires '\'' !in t
    ensures SingleQuoted(t + "'" + rest) == Some(Quoted(t, rest))
  {
    var s := t + "'" + rest;
    if t == "" {
      assert s[1..] == rest;
    } else {
      assert s[0] == t[0] && s[1..] == t[1..] + "'" + rest;
      SingleReads(t[1..], rest);
      assert [t[0]] + t[1..] == t;
    }
  }

  lemma Regrouped(a: string, b: string, c: string, d: string)
    ensures (a + b) + c + d == a + (b + c + d)
  {
  }

  lemma DoubleStep(c: char, t: string, more: string, rest: string)
    requires DoubleQuoted(more) == Some(Quoted(t, rest))
    ensures DoubleQuoted((if Special(c) then ['\\', c] else [c]) + more) == Some(Quoted([c] + t, rest))
  {
    if Special(c) {
      assert (['\\', c] + more)[2..] == more;
    } else {
      assert ([c] + more)[1..] == more;
    }
  }

  lemma {:induction false} DoubleReads(t: string, rest: string)
    ensures DoubleQuoted(Backslashed(t, Special) + "\"" + rest) == Some(Quoted(t, rest))
  {
    if t == "" {
      assert Backslashed(t, Special) + "\"" + rest == "\"" + rest;
      assert ("\"" + rest)[1..] == rest;
    } else {
      var more := Backslashed(t[1..], Special) + "\"" + rest;
      DoubleReads(t[1..], rest);
      DoubleStep(t[0], t[1..], more, rest);
      Regrouped(if Special(t[0]) then ['\\', t[0]] else [t[0]], Backslashed(t[1..], Special), "\"", rest);
      assert [t[0]] + t[1..] == t;
    }
  }

  /** Between double quotes a backslash before any other byte stands for itself. */
  lemma BackslashStays(c: char, t: string, rest: string)
    requires !Special(c)
    ensures DoubleQuoted(['\\', c] + Backslashed(t, Special) + "\"" + rest) == Some(Quoted(['\\', c] + t, rest))
  {
    var more := Backslashed(t, Special) + "\"" + rest;
    DoubleReads(t, rest);
    Regrouped(['\\', c], Backslashed(t, Special), "\"", rest);
    DoubleStep(c, t, more, rest);
    assert (['\\', c] + more)[1..] == [c] + more;
    assert ['\\'] + ([c] + t) == ['\\', c] + t;
  }

  /** However it is written, a piece adds its text to its word. */
  lemma PieceReads(p: Piece, rest: string)
    requires Fits(p)
    ensures Adds(Written(p) + rest, p.text, rest)
  {
    match p.style
    case Bare => BareReads(p.text, rest);
    case Escaped => EscapedReads(p.text, rest);
    case Single =>
      assert (Written(p) + rest)[1..] == p.text + "'" + rest;
      SingleReads(p.text, rest);
    case Double =>
      assert (Written(p) + rest)[1..] == Backslashed(p.text, Special) + "\"" + rest;
      DoubleReads(p.text, rest);
  }

  // ---- Words and commands ----

  function WordWritten(ps: seq<Piece>): string {
    if ps == [] then "" else Written(ps[0]) + WordWritten(ps[1..])
  }

  function TextOf(ps: seq<Piece>): string {
    if ps == [] then "" else ps[0].text + TextOf(ps[1..])
  }

  lemma Moved(a: string, b: string, c: string)
    ensures (a + b) + c == a + (b + c)
  {
  }

  lemma {:induction false} WordReads(ps: seq<Piece>, rest: string)
    requires ps != [] && forall p <- ps :: Fits(p)
    requires rest == "" || rest[0] in {' ', '\t', '\n', '\r'}
    ensures WordAt(WordWritten(ps) + rest) == Some(Word(TextOf(ps), true, rest))
  {
    var tail := WordWritten(ps[1..]) + rest;
    Moved(Written(ps[0]), WordWritten(ps[1..]), rest);
    assert ps[0] in ps;
    PieceReads(ps[0], tail);
    if |ps| == 1 {
      assert tail == rest;
      assert ps[0].text + "" == TextOf(ps);
    } else {
      WordReads(ps[1..], rest);
    }
  }

  ghost predicate IsGap(s: string) {
    forall c <- s :: c in {' ', '\t', '\n', '\r'}
  }

  /** A command: a gap, and words each with the gap after it; only the last gap may be empty. */
  datatype Item = Item(word: seq<Piece>, gap: string)

  ghost predicate WellWritten(items: seq<Item>) {
    forall i :: 0 <= i < |items| ==>
      && items[i].word != [] && (forall p <- items[i].word :: Fits(p))
      && IsGap(items[i].gap) && (i < |items| - 1 ==> items[i].gap != "")
  }

  function ItemsWritten(items: seq<Item>): string {
    if items == [] then "" else WordWritten(items[0].word) + items[0].gap + ItemsWritten(items[1..])
  }

  function Texts(items: seq<Item>): seq<string> {
    seq(|items|, i requires 0 <= i < |items| => TextOf(items[i].word))
  }

  /** A gap before the words is passed over. */
  lemma {:induction false} GapReads(gap: string, s: string)
    requires IsGap(gap)
    ensures Split(gap + s) == Split(s)
  {
    if gap == "" {
      assert gap + s == s;
    } else {
      assert gap[0] in gap && (gap + s)[1..] == gap[1..] + s;
      assert forall c <- gap[1..] :: c in gap;
      GapReads(gap[1..], s);
      var more := Split((gap + s)[1..]);
      if more.Some? {
        assert [] + more.value == more.value;
      }
    }
  }

  lemma WordEnds(word: seq<Piece>)
    requires word != [] && forall p <- word :: Fits(p)
    ensures Split(WordWritten(word)) == Some([TextOf(word)])
  {
    WordReads(word, "");
    assert WordWritten(word) + "" == WordWritten(word);
  }

  lemma WordThenGap(word: seq<Piece>, c: char, after: string)
    requires word != [] && (forall p <- word :: Fits(p)) && c in {' ', '\t', '\n', '\r'} && Split(after).Some?
    ensures Split(WordWritten(word) + ([c] + after)) == Some([TextOf(word)] + Split(after).value)
  {
    WordReads(word, [c] + after);
    assert ([c] + after)[1..] == after;
  }

  lemma HeadAside(gap: string, rest: string)
    requires gap != ""
    ensures gap + rest == [gap[0]] + (gap[1..] + rest)
  {
  }

  lemma GapBehind(gap: string)
    requires IsGap(gap) && gap != ""
    ensures IsGap(gap[1..]) && gap[0] in {' ', '\t', '\n', '\r'}
  {
    assert gap[0] in gap && forall c <- gap[1..] :: c in gap;
  }

  lemma WordAndGap(word: seq<Piece>, gap: string, rest: string)
    requires word != [] && (forall p <- word :: Fits(p)) && IsGap(gap) && gap != "" && Split(rest).Some?
    ensures Split(WordWritten(word) + (gap + rest)) == Some([TextOf(word)] + Split(rest).value)
  {
    GapBehind(gap);
    GapReads(gap[1..], rest);
    HeadAside(gap, rest);
    WordThenGap(word, gap[0], gap[1..] + rest);
  }

  lemma NothingBehind(word: seq<Piece>)
    requires word != [] && forall p <- word :: Fits(p)
    ensures Split(WordWritten(word) + "" + "") == Some([TextOf(word)] + Split("").value)
  {
    WordEnds(word);
    assert WordWritten(word) + "" + "" == WordWritten(word);
    assert Split("") == Some([]) && [TextOf(word)] + [] == [TextOf(word)];
  }

  /** A word and its gap are read, and then the rest. */
  lemma ItemReads(item: Item, rest: string)
    requires item.word != [] && (forall p <- item.word :: Fits(p)) && IsGap(item.gap) && (item.gap != "" || rest == "")
    requires Split(rest).Some?
    ensures Split(WordWritten(item.word) + item.gap + rest) == Some([TextOf(item.word)] + Split(rest).value)
  {
    if item.gap == "" {
      NothingBehind(item.word);
    } else {
      Moved(WordWritten(item.word), item.gap, rest);
      WordAndGap(item.word, item.gap, rest);
    }
  }

  lemma {:induction false} ItemsRead(items: seq<Item>)
    requires WellWritten(items)
    ensures Split(ItemsWritten(items)) == Some(Texts(items))
    decreases |items|
  {
    if items != [] {
      LaterItems(items);
      ItemsRead(items[1..]);
      ItemReads(items[0], ItemsWritten(items[1..]));
      assert Texts(items) == [TextOf(items[0].word)] + Texts(items[1..]);
    }
  }

  lemma LaterItems(items: seq<Item>)
    requires WellWritten(items) && items != []
    ensures WellWritten(items[1..])
    ensures items[0].gap != "" || ItemsWritten(items[1..]) == ""
  {
    forall i | 0 <= i < |items[1..]| ensures items[1..][i] == items[i + 1] {
    }
  }

  /**
   * Splitting gives back the words of every command, whatever mixture of bare text, single quotes,
   * double quotes and backslashes each is written in, and whatever spaces are before, between and after.
   */
  lemma SplitReadsEveryWriting(lead: string, items: seq<Item>)
    requires IsGap(lead) && WellWritten(items)
    ensures Split(lead + ItemsWritten(items)) == Some(Texts(items))
  {
    GapReads(lead, ItemsWritten(items));
    ItemsRead(items);
  }

  /** A backslash that ends the input, outside quotes, is dropped. */
  lemma LastBackslashDropped(ps: seq<Piece>)
    requires ps == [] || forall p <- ps :: Fits(p)
    ensures Split(WordWritten(ps) + "\\") == Some(if ps == [] then [] else [TextOf(ps)])
  {
    DroppedAfter(ps);
  }

  lemma {:induction false} DroppedAfter(ps: seq<Piece>)
    requires forall p <- ps :: Fits(p)
    ensures WordAt(WordWritten(ps) + "\\") == Some(Word(TextOf(ps), ps != [], ""))
  {
    if ps == [] {
      assert WordWritten(ps) + "\\" == "\\";
    } else {
      var tail := WordWritten(ps[1..]) + "\\";
      assert WordWritten(ps) + "\\" == Written(ps[0]) + tail;
      assert ps[0] in ps;
      PieceReads(ps[0], tail);
      DroppedAfter(ps[1..]);
    }
  }
}
