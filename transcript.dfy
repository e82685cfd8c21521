/**
 The read-only text area that shows the interpreter's output, modelled as the
 sequence of its blocks (lines). A document always has at least one block; the
 empty document is a single empty block. Blocks never contain a line break.
 */
module Transcript {

  /** The most blocks kept after standard output is shown. */
  const MaxLines: nat := 1000

  /** Marker put in front of each chunk of standard error. */
  const ErrorPrefix: string := "Error: "

  /**
   Characters at which inserted text starts a new block ("\r\n" counts once):
   LF, CR, the paragraph separator and the two frame markers of the text
   document.
   */
  predicate IsBreak(c: char)
  {
    c == '\n' || c == '\r' || c == '\U{2029}' || c == '\U{FDD0}' || c == '\U{FDD1}'
  }

  /** A single block's text. */
  predicate IsLine(l: string)
  {
    forall i :: 0 <= i < |l| ==> !IsBreak(l[i])
  }

  predicate WellFormed(doc: seq<string>)
  {
    |doc| >= 1 && forall i :: 0 <= i < |doc| ==> IsLine(doc[i])
  }

  const EmptyDocument: seq<string> := [""]

  /** The blocks that inserting `text` produces. */
  function Blocks(text: string): (r: seq<string>)
    ensures WellFormed(r)
    ensures IsLine(text) ==> r == [text]
    decreases |text|
  {
    if text == [] then [""]
    else if |text| >= 2 && text[0] == '\r' && text[1] == '\n' then [""] + Blocks(text[2..])
    else if IsBreak(text[0]) then [""] + Blocks(text[1..])
    else
      var rest := Blocks(text[1..]);
      assert IsLine([text[0]] + rest[0]) by {
        forall i | 0 <= i < |[text[0]] + rest[0]| ensures !IsBreak(([text[0]] + rest[0])[i]) {
          if i > 0 { assert ([text[0]] + rest[0])[i] == rest[0][i - 1]; }
        }
      }
      assert IsLine(text) ==> text == [text[0]] + text[1..];
      [[text[0]] + rest[0]] + rest[1..]
  }

  /** The parts joined by '\n' (QStringList::join). */
  function Join(parts: seq<string>): (r: string)
    ensures |parts| >= 1 ==> parts[0] <= r
    ensures |parts| >= 2 ==> |r| > |parts[0]| && r[|parts[0]|] == '\n'
  {
    if |parts| == 0 then ""
    else if |parts| == 1 then parts[0]
    else parts[0] + "\n" + Join(parts[1..])
  }

  /** QString::split('\n'), keeping empty parts. */
  function Split(s: string): (r: seq<string>)
    ensures |r| >= 1
    ensures forall i :: 0 <= i < |r| ==> '\n' !in r[i]
    ensures Join(r) == s
  {
    if s == [] then [""]
    else if s[0] == '\n' then
      var rest := Split(s[1..]);
      assert s == "\n" + s[1..];
      [""] + rest
    else
      var rest := Split(s[1..]);
      var r := [[s[0]] + rest[0]] + rest[1..];
      assert r[1..] == rest[1..];
      assert '\n' !in r[0];
      assert s == [s[0]] + s[1..];
      r
  }

  lemma {:induction false} SplitCons(l: string, t: string)
    requires '\n' !in l
    ensures Split(l + t) == [l + Split(t)[0]] + Split(t)[1..]
  {
    if l == [] {
      assert l + t == t;
      assert l + Split(t)[0] == Split(t)[0];
      assert Split(t) == [Split(t)[0]] + Split(t)[1..];
    } else {
      var st := Split(t);
      assert (l + t)[0] == l[0] && l[0] != '\n';
      assert (l + t)[1..] == l[1..] + t;
      SplitCons(l[1..], t);
      var rest := Split(l[1..] + t);
      assert rest == [l[1..] + st[0]] + st[1..];
      assert Split(l + t) == [[l[0]] + rest[0]] + rest[1..];
      assert [l[0]] + (l[1..] + st[0]) == l + st[0];
    }
  }

  /** Splitting at '\n' undoes joining with '\n' when no part holds a '\n'. */
  lemma {:induction false} SplitJoin(parts: seq<string>)
    requires |parts| >= 1
    requires forall i :: 0 <= i < |parts| ==> '\n' !in parts[i]
    ensures Split(Join(parts)) == parts
  {
    if |parts| == 1 {
      SplitCons(parts[0], "");
      assert parts[0] + "" == parts[0];
    } else {
      var tail := Join(parts[1..]);
      SplitJoin(parts[1..]);
      assert Join(parts) == parts[0] + ("\n" + tail);
      SplitCons(parts[0], "\n" + tail);
      assert ("\n" + tail)[0] == '\n' && ("\n" + tail)[1..] == tail;
      assert Split("\n" + tail) == [""] + parts[1..];
      assert parts[0] + "" == parts[0];
      assert parts == [parts[0]] + parts[1..];
    }
  }

  /** A character that is not a break joins the first block of what follows it. */
  lemma BlocksUnfold(c: char, u: string)
    requires !IsBreak(c)
    ensures Blocks([c] + u) == [[c] + Blocks(u)[0]] + Blocks(u)[1..]
  {
    assert ([c] + u)[0] == c && ([c] + u)[1..] == u;
  }

  /** The line ending cmd.exe prints, "\r\n", is a single break. */
  lemma CrLfIsOneBreak()
    ensures Blocks("a\r\nb") == ["a", "b"]
  {
    var text := "a\r\nb";
    assert text[1..] == "\r\nb" && text[1..][2..] == "b" && "b"[1..] == "";
    assert Blocks("b") == ["b"];
    var rest := Blocks("\r\nb");
    assert rest == ["", "b"];
    assert !IsBreak(text[0]) && [text[0]] + rest[0] == "a" && rest[1..] == ["b"];
    assert Blocks(text) == [[text[0]] + rest[0]] + rest[1..];
  }

  lemma {:induction false} BlocksCons(l: string, t: string)
    requires IsLine(l)
    ensures Blocks(l + t) == [l + Blocks(t)[0]] + Blocks(t)[1..]
  {
    var bt := Blocks(t);
    if l == [] {
      assert l + t == t && l + bt[0] == bt[0];
      assert bt == [bt[0]] + bt[1..];
    } else {
      var c, u := l[0], l[1..] + t;
      assert IsLine(l[1..]) && !IsBreak(c);
      assert l + t == [c] + u;
      var bu := Blocks(u);
      assert bu == [l[1..] + bt[0]] + bt[1..] by {
        BlocksCons(l[1..], t);
      }
      assert Blocks([c] + u) == [[c] + bu[0]] + bu[1..] by {
        BlocksUnfold(c, u);
      }
      assert [c] + (l[1..] + bt[0]) == l + bt[0];
    }
  }

  /** Inserting the '\n'-joined text of a document rebuilds the document. */
  lemma {:induction false} BlocksJoin(doc: seq<string>)
    requires WellFormed(doc)
    ensures Blocks(Join(doc)) == doc
  {
    if |doc| == 1 {
      BlocksCons(doc[0], "");
      assert doc[0] + "" == doc[0];
    } else {
      var tail := Join(doc[1..]);
      BlocksJoin(doc[1..]);
      assert Join(doc) == doc[0] + ("\n" + tail);
      BlocksCons(doc[0], "\n" + tail);
      assert ("\n" + tail)[0] == '\n' && ("\n" + tail)[1..] == tail;
      assert Blocks("\n" + tail) == [""] + doc[1..];
      assert doc[0] + "" == doc[0];
      assert doc == [doc[0]] + doc[1..];
    }
  }

  /**
   QPlainTextEdit::appendPlainText: the text becomes new blocks at the end;
   an empty document is replaced rather than followed by them.
   */
  function AppendPlainText(doc: seq<string>, text: string): (r: seq<string>)
    requires WellFormed(doc)
    ensures WellFormed(r)
    ensures |r| >= |Blocks(text)|
    ensures r[|r| - |Blocks(text)|..] == Blocks(text)
    ensures doc != EmptyDocument ==> |r| == |doc| + |Blocks(text)| && r[..|doc|] == doc
    ensures doc == EmptyDocument ==> |r| == |Blocks(text)|
  {
    if doc == EmptyDocument then Blocks(text) else doc + Blocks(text)
  }

  /**
   The document that setPlainText(toPlainText().split('\n').mid(lines - n).join('\n'))
   leaves, with `lines` the block count: exactly the newest `n` blocks.
   */
  function KeepLast(doc: seq<string>, n: nat): (r: seq<string>)
    requires WellFormed(doc)
    requires 0 < n <= |doc|
    ensures WellFormed(r)
    ensures r == doc[|doc| - n..]
  {
    var lines := |doc|;
    var parts := Split(Join(doc));
    SplitJoin(doc);
    var kept := parts[lines - n..];
    BlocksJoin(kept);
    Blocks(Join(kept))
  }

  /** An append never makes the document shorter, so only an explicit trim bounds it. */
  lemma AppendOverBound(doc: seq<string>, text: string)
    requires WellFormed(doc) && |doc| >= MaxLines
    ensures |AppendPlainText(doc, text)| > MaxLines
  {
  }
}
