/**
 What the window writes to the command interpreter's standard input: a typed
 command with its surrounding white space removed and a "\r\n" terminator, or
 the single Ctrl+C byte 0x03. Text is modelled as characters; the UTF-8
 encoding of the command on its way to the pipe is not modelled.
 */
module Wire {

  type byte = x: int | 0 <= x < 0x100

  /** The interrupt byte (ASCII ETX, what Ctrl+C produces at a console). */
  const CtrlC: byte := 0x03

  /** The line terminator sent after every command. */
  const CRLF: string := "\r\n"

  /** One buffer handed to the process's write(). */
  datatype Chunk = Text(s: string) | Raw(b: byte)

  /**
   White space as Qt's QChar::isSpace sees it: TAB, LF, VT, FF, CR, SPACE,
   NEL, NBSP, and the Unicode space, line and paragraph separators.
   */
  predicate IsSpace(c: char)
  {
    || c == ' '
    || ('\t' <= c <= '\r')
    || c == '\U{85}'
    || c == '\U{A0}'
    || c == '\U{1680}'
    || ('\U{2000}' <= c <= '\U{200A}')
    || c == '\U{2028}'
    || c == '\U{2029}'
    || c == '\U{202F}'
    || c == '\U{205F}'
    || c == '\U{3000}'
  }

  /** Every character is white space (true of the empty string). */
  predicate IsBlank(s: string)
  {
    forall i :: 0 <= i < |s| ==> IsSpace(s[i])
  }

  /** Neither end of `s` is white space. */
  predicate HasNoMargins(s: string)
  {
    s == [] || (!IsSpace(s[0]) && !IsSpace(s[|s| - 1]))
  }

  /** The length of the longest blank prefix. */
  function LeadingSpaces(s: string): (n: nat)
    ensures n <= |s|
    ensures IsBlank(s[..n])
    ensures n < |s| ==> !IsSpace(s[n])
  {
    if s == [] || !IsSpace(s[0]) then 0 else 1 + LeadingSpaces(s[1..])
  }

  /** Where the longest blank suffix begins. */
  function TrailingStart(s: string): (n: nat)
    ensures n <= |s|
    ensures IsBlank(s[n..])
    ensures 0 < n ==> !IsSpace(s[n - 1])
  {
    if s == [] || !IsSpace(s[|s| - 1]) then |s| else TrailingStart(s[..|s| - 1])
  }

  /** QString::trimmed: `s` without its leading and trailing white space. */
  function Trim(s: string): (r: string)
    ensures |r| <= |s|
    ensures r == [] <==> IsBlank(s)
    ensures HasNoMargins(r)
  {
    var i := LeadingSpaces(s);
    var j := TrailingStart(s);
    if j <= i then
      assert i == |s|;
      assert s[..i] == s;
      []
    else
      var r := s[i..j];
      assert !IsSpace(r[0]) && !IsSpace(r[|r| - 1]);
      assert !IsSpace(s[i]);
      r
  }

  /** Trimming removes white space at the two ends and nothing else. */
  lemma TrimRemovesOnlyMargins(s: string)
    ensures exists a, b :: s == a + Trim(s) + b && IsBlank(a) && IsBlank(b)
  {
    var i, j := LeadingSpaces(s), TrailingStart(s);
    if j <= i {
      assert s[..i] == s;
      assert Trim(s) == [] && IsBlank([]);
      assert s == [] + Trim(s) + s;
    } else {
      assert Trim(s) == s[i..j];
      assert s == s[..i] + s[i..j] + s[j..];
    }
  }

  lemma {:induction false} LeadingSpacesOfPadded(a: string, t: string)
    requires IsBlank(a)
    requires t == [] || !IsSpace(t[0])
    ensures LeadingSpaces(a + t) == |a|
  {
    if a != [] {
      assert (a + t)[1..] == a[1..] + t;
      LeadingSpacesOfPadded(a[1..], t);
    } else {
      assert a + t == t;
    }
  }

  lemma {:induction false} TrailingStartOfPadded(t: string, b: string)
    requires IsBlank(b)
    requires t == [] || !IsSpace(t[|t| - 1])
    ensures TrailingStart(t + b) == |t|
  {
    if b != [] {
      assert (t + b)[..|t + b| - 1] == t + b[..|b| - 1];
      TrailingStartOfPadded(t, b[..|b| - 1]);
    } else {
      assert t + b == t;
    }
  }

  /**
   Trim is characterised by its result: whatever blank margins surround a
   text without margins, trimming gives back exactly that text.
   */
  lemma {:induction false} TrimOfPadded(a: string, t: string, b: string)
    requires IsBlank(a) && IsBlank(b)
    requires HasNoMargins(t)
    ensures Trim(a + t + b) == t
  {
    var s := a + t + b;
    if t == [] {
      assert s == a + b;
      assert IsBlank(s) by {
        forall k | 0 <= k < |s| ensures IsSpace(s[k]) {
          if k < |a| { assert s[k] == a[k]; } else { assert s[k] == b[k - |a|]; }
        }
      }
    } else {
      assert s == a + (t + b);
      LeadingSpacesOfPadded(a, t + b);
      assert s == (a + t) + b;
      TrailingStartOfPadded(a + t, b);
      assert s[|a|..|a| + |t|] == t;
    }
  }

  /** Trimming twice is trimming once. */
  lemma TrimIdempotent(s: string)
    ensures Trim(Trim(s)) == Trim(s)
  {
    var t := Trim(s);
    assert [] + t + [] == t;
    TrimOfPadded([], t, []);
  }

  /** The bytes sent for one submitted command line. */
  function Frame(text: string): (r: string)
    ensures |r| >= |CRLF| && r[|r| - |CRLF|..] == CRLF
    ensures r == CRLF <==> IsBlank(text)
    ensures HasNoMargins(r[..|r| - |CRLF|])
  {
    var command := Trim(text);
    assert (command + CRLF)[..|command|] == command;
    command + CRLF
  }

  /** An empty or blank line is sent as a bare terminator. */
  lemma FrameOfBlank()
    ensures Frame("") == "\r\n"
    ensures Frame(" \t ") == "\r\n"
  {
    assert IsBlank(" \t ");
  }

  /** A command is sent without its blank margins, followed by the terminator. */
  lemma FrameOfCommand()
    ensures Frame("dir") == "dir\r\n"
  {
    assert HasNoMargins("dir");
    assert IsBlank([]);
    assert "dir" == [] + "dir" + [];
    TrimOfPadded([], "dir", []);
  }

  /** Surrounding blanks of any kind are not sent. */
  lemma FrameOfPaddedCommand()
    ensures Frame("  echo hi\t") == "echo hi\r\n"
  {
    assert IsBlank("  ") && IsBlank("\t") && HasNoMargins("echo hi");
    assert "  echo hi\t" == "  " + "echo hi" + "\t";
    TrimOfPadded("  ", "echo hi", "\t");
  }
}
