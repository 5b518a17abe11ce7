/**
 Rendering of the listing as an Emacs-Lisp association list
 `(("path" . "code")...)`, the exit status and standard output of one run,
 and a reader for the rendered form that shows what the rendering preserves.
 */
module Alist {
  import opened Wrappers
  import opened Status
  import opened Propagation

  /** One cons cell `("path" . "code")`; the path is inserted verbatim. */
  function Cell(e: Entry): string
  {
    "(\"" + e.path + "\" . \"" + Encode(e.code) + "\")"
  }

  /** The cells of a listing, concatenated in listing order. */
  function Cells(es: seq<Entry>): string
  {
    if |es| == 0 then "" else Cell(es[0]) + Cells(es[1..])
  }

  /** Rendering the cells of two listings one after the other is rendering
      the joined listing: cells appear in listing order. */
  lemma {:induction false} CellsAppend(a: seq<Entry>, b: seq<Entry>)
    ensures Cells(a + b) == Cells(a) + Cells(b)
  {
    if |a| > 0 {
      assert (a + b)[0] == a[0];
      assert (a + b)[1..] == a[1..] + b;
      CellsAppend(a[1..], b);
    } else {
      assert a + b == b;
    }
  }

  /** No path of the listing contains a double quote or a backslash, the two
      characters an Emacs-Lisp string literal does not take verbatim. */
  predicate LispSafe(es: seq<Entry>)
  {
    forall i :: 0 <= i < |es| ==> '"' !in es[i].path && '\\' !in es[i].path
  }

  /** The whole association list. When every path is safe to put between
      double quotes unchanged, reading the text back gives exactly the listing
      that was rendered: no entry is lost, added, reordered or changed. */
  function Render(es: seq<Entry>): (s: string)
    ensures |s| >= 2 && s[0] == '(' && s[|s| - 1] == ')'
    ensures LispSafe(es) ==> Read(s) == Some(es)
  {
    var s := "(" + Cells(es) + ")";
    assert s[1..|s| - 1] == Cells(es);
    if LispSafe(es) then ReadCellsOfCells(es); s else s
  }

  /** A string literal read off the front of some text: its contents, and the
      index of the double quote that closes it. */
  datatype Literal = Literal(text: string, close: nat)

  /** Reads the contents of an Emacs-Lisp string literal whose opening quote
      has been consumed. A double quote closes the literal; a backslash escapes
      the next character, so `\"` is a quote and `\\` a backslash inside it.
      Other escapes are refused, as is text that never closes the literal. */
  function ReadString(s: string): (r: Option<Literal>)
    ensures r.Some? ==> r.value.close < |s| && s[r.value.close] == '"'
    decreases |s|
  {
    if |s| == 0 then None
    else if s[0] == '"' then Some(Literal("", 0))
    else if s[0] == '\\' then
      if |s| >= 2 && (s[1] == '"' || s[1] == '\\') then
        match ReadString(s[2..])
        case None => None
        case Some(l) => Some(Literal([s[1]] + l.text, l.close + 2))
      else None
    else
      match ReadString(s[1..])
      case None => None
      case Some(l) => Some(Literal([s[0]] + l.text, l.close + 1))
  }

  /** A path without quotes or backslashes, written between quotes as is,
      reads back as itself and closes right after it. */
  lemma {:induction false} ReadStringPlain(p: string, rest: string)
    requires '"' !in p && '\\' !in p
    ensures ReadString(p + "\"" + rest) == Some(Literal(p, |p|))
  {
    var s := p + "\"" + rest;
    if |p| > 0 {
      assert s[0] == p[0];
      assert s[1..] == p[1..] + "\"" + rest;
      ReadStringPlain(p[1..], rest);
      assert [p[0]] + p[1..] == p;
    } else {
      assert s[0] == '"';
    }
  }

  /** An ordinary character is read as itself. */
  lemma ReadStringPlainStep(c: char, s: string)
    requires c != '"' && c != '\\'
    ensures ReadString([c] + s)
         == (match ReadString(s)
             case None => None
             case Some(l) => Some(Literal([c] + l.text, l.close + 1)))
  {
    assert ([c] + s)[1..] == s;
  }

  /** An escaped quote or backslash is read as that character. */
  lemma ReadStringEscapeStep(c: char, s: string)
    requires c == '"' || c == '\\'
    ensures ReadString(['\\', c] + s)
         == (match ReadString(s)
             case None => None
             case Some(l) => Some(Literal([c] + l.text, l.close + 2)))
  {
    assert (['\\', c] + s)[2..] == s;
  }

  /** Reads a sequence of cells `("path" . "code")`, each path read as an
      Emacs-Lisp string literal. */
  function ReadCells(t: string): (r: Option<seq<Entry>>)
    decreases |t|
  {
    if |t| == 0 then Some([])
    else if |t| < 2 || t[..2] != "(\"" then None
    else
      var body := t[2..];
      match ReadString(body)
      case None => None
      case Some(lit) =>
        var q := lit.close;
        if q + 8 <= |body| && body[q..q + 5] == "\" . \"" && body[q + 6..q + 8] == "\")" then
          match Decode([body[q + 5]])
          case None => None
          case Some(c) =>
            match ReadCells(body[q + 8..])
            case None => None
            case Some(rest) => Some([Entry(lit.text, c)] + rest)
        else None
  }

  /** Reads an association list produced by `Render`. */
  function Read(s: string): (r: Option<seq<Entry>>)
  {
    if |s| >= 2 && s[0] == '(' && s[|s| - 1] == ')' then ReadCells(s[1..|s| - 1]) else None
  }

  /** Where the pieces of a cell sit in the text that follows its opening `("`. */
  lemma CellLayout(p: string, code: string, rest: string)
    requires '"' !in p && '\\' !in p
    requires |code| == 1
    ensures var body := p + "\" . \"" + code + "\")" + rest;
            && ReadString(body) == Some(Literal(p, |p|))
            && body[|p|..|p| + 5] == "\" . \""
            && [body[|p| + 5]] == code
            && body[|p| + 6..|p| + 8] == "\")"
            && body[|p| + 8..] == rest
  {
    var after := " . \"" + code + "\")" + rest;
    assert p + "\" . \"" + code + "\")" + rest == p + "\"" + after;
    ReadStringPlain(p, after);
  }

  /** Reading stops each path at the closing quote, so one quote-free cell
      in front of any text is read off exactly. */
  lemma ReadCellStep(e: Entry, rest: string)
    requires '"' !in e.path && '\\' !in e.path
    ensures ReadCells(Cell(e) + rest)
         == (match ReadCells(rest)
             case None => None
             case Some(es) => Some([e] + es))
  {
    var p := e.path;
    var code := Encode(e.code);
    var body := p + "\" . \"" + code + "\")" + rest;
    var t := Cell(e) + rest;
    assert t == "(\"" + body;
    assert t[..2] == "(\"" && t[2..] == body;
    CellLayout(p, code, rest);
    DecodeEncode(e.code, e.code);
  }

  lemma {:induction false} ReadCellsOfCells(es: seq<Entry>)
    requires LispSafe(es)
    ensures ReadCells(Cells(es)) == Some(es)
  {
    if |es| > 0 {
      assert LispSafe(es[1..]) by {
        assert forall i :: 0 <= i < |es[1..]| ==> es[1..][i] == es[i + 1];
      }
      ReadCellsOfCells(es[1..]);
      ReadCellStep(es[0], Cells(es[1..]));
      assert es == [es[0]] + es[1..];
    }
  }

  /** The cells of a one-entry listing are that entry's cell. */
  lemma CellsSingle(e: Entry)
    ensures Cells([e]) == Cell(e)
  {
    assert [e][1..] == [];
  }

  /** The text of the cell of the quoted path used below. */
  lemma QuotedPathCell()
    ensures Cell(Entry("a\" . \"0\")(\"b", Unmodified)) == "(\"a\" . \"0\")(\"b\" . \"0\")"
  {
    assert Cell(Entry("a\" . \"0\")(\"b", Unmodified))
        == "(\"" + "a\" . \"0\")(\"b" + "\" . \"" + "0" + "\")";
  }

  /** The text of the cells of the listing `a`, `b`. */
  lemma PairCells()
    ensures Cells([Entry("a", Unmodified), Entry("b", Unmodified)]) == "(\"a\" . \"0\")(\"b\" . \"0\")"
  {
    var a := Entry("a", Unmodified);
    var b := Entry("b", Unmodified);
    CellsSingle(b);
    assert [a, b][1..] == [b];
    assert Cells([a, b]) == Cell(a) + Cell(b);
    assert Cell(a) == "(\"a\" . \"0\")";
    assert Cell(b) == "(\"b\" . \"0\")";
  }

  /** Paths are not escaped, so a path holding double quotes can render to the
      same text as a different, longer listing. */
  lemma RenderAmbiguousForQuotedPaths()
    ensures Render([Entry("a\" . \"0\")(\"b", Unmodified)])
         == Render([Entry("a", Unmodified), Entry("b", Unmodified)])
  {
    CellsSingle(Entry("a\" . \"0\")(\"b", Unmodified));
    QuotedPathCell();
    PairCells();
  }

  /** The text after the opening `("` of the cell of path `a\`: the
      backslash escapes the quote meant to close the path, so the literal runs
      on to the quote before the code. */
  lemma BackslashCellLiteral()
    ensures ReadString("a\\\" . \"0\")") == Some(Literal("a\" . ", 6))
  {
    var t0 := "\"0\")";
    var t1 := [' '] + t0;
    var t2 := ['.'] + t1;
    var t3 := [' '] + t2;
    var t5 := ['\\', '"'] + t3;
    assert ReadString(t0) == Some(Literal("", 0));
    ReadStringPlainStep(' ', t0);
    assert [' '] + "" == " ";
    ReadStringPlainStep('.', t1);
    assert ['.'] + " " == ". ";
    ReadStringPlainStep(' ', t2);
    assert [' '] + ". " == " . ";
    ReadStringEscapeStep('"', t3);
    assert ['"'] + " . " == "\" . ";
    ReadStringPlainStep('a', t5);
    assert ['a'] + "\" . " == "a\" . ";
    assert ['a'] + t5 == "a\\\" . \"0\")";
  }

  /** The cell of path `a\` does not read as a cell. */
  lemma BackslashCellUnreadable()
    ensures ReadCells("(\"a\\\" . \"0\")") == None
  {
    var cell := "(\"a\\\" . \"0\")";
    assert cell[..2] == "(\"" && cell[2..] == "a\\\" . \"0\")";
    BackslashCellLiteral();
  }

  /** The rendered text of the listing holding path `a\`, inside its parentheses. */
  lemma BackslashCell()
    ensures var s := Render([Entry("a\\", Unmodified)]);
            s[1..|s| - 1] == "(\"a\\\" . \"0\")"
  {
    var e := Entry("a\\", Unmodified);
    assert Cell(e) == "(\"" + "a\\" + "\" . \"" + "0" + "\")";
    CellsSingle(e);
    var s := Render([e]);
    assert s[1..|s| - 1] == Cells([e]);
  }

  /** A path ending in a backslash escapes the quote meant to close it, so the
      literal runs on through ` . ` and what follows is no cell: the rendered
      list does not read back. */
  lemma RenderBackslashPathUnreadable()
    ensures Read(Render([Entry("a\\", Unmodified)])) == None
  {
    BackslashCell();
    BackslashCellUnreadable();
  }

  /** Exit status and standard output of one run. */
  datatype Completion = Completion(exitStatus: int, stdout: string)

  /** One run of the script: exit status 2 and no output when the target's
      code is unchanged, else exit status 0 and the rendered list on one line. */
  function Run(target: Path, targetProbes: Probes, prev: string, ancs: seq<Ancestor>): (r: Completion)
    ensures r.exitStatus == 2 <==> prev == Encode(Resolve(targetProbes))
    ensures r.exitStatus == 2 ==> r.stdout == ""
    ensures r.exitStatus != 2 ==>
              r.exitStatus == 0 && r.stdout == Render(Compute(target, targetProbes, prev, ancs).entries) + "\n"
  {
    match Compute(target, targetProbes, prev, ancs)
    case Unchanged => Completion(2, "")
    case Listing(es) => Completion(0, Render(es) + "\n")
  }
}
