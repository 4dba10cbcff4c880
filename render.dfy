/**
 * The output side of `blame` in src/blame.rs: the column widths, the highlighter with its
 * guard for long lines, the loop that turns each line of the file into one row of the
 * gutter and its code, and the decoding of the blob by content type.
 *
 * syntect's tokeniser and style rendering, textwrap's wrapping, git2's line-to-hunk
 * lookup and the content inspector and decoders are inputs (functions); the terminal
 * width, `COLUMNS` and whether stdout takes colour are parameters. What the row loop
 * writes to the pager is modelled as the sequence of rows, `RowText` giving each one's
 * text.
 */
module BlameRender {
  import opened Base
  import opened Text
  import opened Blame
  import opened Revset
  import G = Git2Config

  /** The gutter separator "│" (U+2502), three bytes in UTF-8. */
  const SEP: string := "\U{2502}"
  /** What stands for an origin repeated from the line above: "⋮" (U+22EE). */
  const CONTINUATION: string := "\U{22EE}"
  /** The byte order mark stripped from the first line. */
  const BOM: char := '\U{FEFF}'
  /** The spaces a row holds besides its padded columns. */
  const SPACE_COUNT: nat := 3
  /** Lines longer than this many bytes are not tokenised. */
  const LONG_LINE_BYTES: nat := 1024 * 16
  /** `anstyle::Reset.render()`. */
  const RESET_CODE: string := "\U{1B}[0m"

  /** `THEME_DEFAULT`. */
  const THEME_DEFAULT: string := "Monokai Extended"
  /** `THEME`: `dive.theme`, defaulting to `THEME_DEFAULT`. */
  const THEME := G.DefaultField(G.RawField("dive.theme", G.StringType), G.StrVal(THEME_DEFAULT))

  /** The theme name is "Monokai Extended" when no source has a string for `dive.theme`. */
  lemma ThemeDefaultsToMonokai(srcs: seq<G.Source>)
    requires |srcs| > 0
    requires forall j :: 0 <= j < |srcs| ==> G.SourceRead(srcs[j], G.StringOf, "dive.theme").Err?
    ensures G.DefaultGetFrom(THEME, srcs) == G.StrVal("Monokai Extended")
  {
  }

  // ----- widths -----

  /** A width as `terminal_size` reports it, a `u16`. */
  type U16 = n: nat | n <= 0xFFFF

  /** The terminal width: the terminal's own when there is one, else `COLUMNS` read as a
      `u16`, else 80. */
  function TotalWidth(terminal: Option<U16>, columns: Option<string>): (w: nat)
    ensures w <= 0xFFFF
    ensures terminal.Some? ==> w == terminal.value
    ensures terminal.None? && columns.Some? && ParseInteger(columns.value, false, 0, 0xFFFF).Some? ==>
              w == ParseInteger(columns.value, false, 0, 0xFFFF).value
    ensures terminal.None? && (columns.None? || ParseInteger(columns.value, false, 0, 0xFFFF).None?) ==>
              w == 80
  {
    match terminal
    case Some(t) => t
    case None =>
      match columns
      case None => 80
      case Some(c) =>
        match ParseInteger(c, false, 0, 0xFFFF)
        case Some(v) => v
        case None => 80
  }

  /** The width of the origin column: the byte length of the longest origin in the table,
      0 for an empty table. */
  ghost function MaxOriginWidth(notes: map<ChangeId, Annotation>): (w: nat)
    ensures forall id :: id in notes ==> Utf8Len(Origin(notes[id])) <= w
    ensures |notes| == 0 ==> w == 0
    ensures |notes| > 0 ==> exists id :: id in notes && Utf8Len(Origin(notes[id])) == w
    decreases |notes|
  {
    if |notes| == 0 then 0
    else
      var id :| id in notes;
      var rest := notes - {id};
      assert rest.Keys == notes.Keys - {id};
      var here := Utf8Len(Origin(notes[id]));
      var m := MaxOriginWidth(rest);
      assert forall other :: other in notes && other != id ==> other in rest && rest[other] == notes[other];
      if here >= m then here else m
  }

  /** A bound on every origin that one origin reaches is the origin width. */
  lemma MaxOriginWidthIs(notes: map<ChangeId, Annotation>, w: nat)
    requires forall id :: id in notes ==> Utf8Len(Origin(notes[id])) <= w
    requires |notes| == 0 ==> w == 0
    requires |notes| > 0 ==> exists id :: id in notes && Utf8Len(Origin(notes[id])) == w
    ensures w == MaxOriginWidth(notes)
  {
    if |notes| > 0 {
      var m := MaxOriginWidth(notes);
      var a :| a in notes && Utf8Len(Origin(notes[a])) == w;
      var b :| b in notes && Utf8Len(Origin(notes[b])) == m;
      assert w <= m && m <= w;
    }
  }

  /** The origin width `blame` computes, by a pass over the table. */
  method OriginWidth(notes: map<ChangeId, Annotation>) returns (w: nat)
    ensures w == MaxOriginWidth(notes)
    ensures forall id :: id in notes ==> Utf8Len(Origin(notes[id])) <= w
    ensures |notes| == 0 ==> w == 0
    ensures |notes| > 0 ==> exists id :: id in notes && Utf8Len(Origin(notes[id])) == w
  {
    w := 0;
    var rest := notes.Keys;
    while rest != {}
      invariant rest <= notes.Keys
      invariant forall id :: id in notes.Keys - rest ==> Utf8Len(Origin(notes[id])) <= w
      invariant (notes.Keys - rest == {} && w == 0) ||
                exists id :: id in notes.Keys - rest && Utf8Len(Origin(notes[id])) == w
      decreases |rest|
    {
      var id :| id in rest;
      var len := Utf8Len(Origin(notes[id]));
      if len > w {
        w := len;
      }
      rest := rest - {id};
    }
    assert notes.Keys - rest == notes.Keys;
    MaxOriginWidthIs(notes, w);
  }

  /** The gutter width `blame` reserves: the origin width, the digits of the line count,
      the separator's bytes and the spaces. */
  function GutterWidth(originWidth: nat, lineCount: nat): nat {
    originWidth + |NatToString(lineCount)| + Utf8Len(SEP) + SPACE_COUNT
  }

  /** The separator is counted by its three bytes, so the gutter is six wider than its two
      padded columns, and the line-count column has as many digits as the count. */
  lemma GutterWidthSpec(originWidth: nat, lineCount: nat)
    ensures GutterWidth(originWidth, lineCount) == originWidth + |NatToString(lineCount)| + 6
    ensures lineCount < Pow10(GutterWidth(originWidth, lineCount) - originWidth - 6)
  {
    assert Utf8Len(SEP) == 3;
    NatToStringWidth(lineCount);
  }

  /** The width left for code: the terminal width less the gutter, and 0 (not a negative
      number) when the gutter does not fit. */
  function CodeWidth(totalWidth: nat, gutterWidth: nat): (w: nat)
    ensures gutterWidth <= totalWidth ==> w + gutterWidth == totalWidth
    ensures totalWidth < gutterWidth ==> w == 0
  {
    if gutterWidth <= totalWidth then totalWidth - gutterWidth else 0
  }

  // ----- rows -----

  /** The widths and escape codes shared by every row. */
  datatype Layout = Layout(originWidth: nat, lineCountWidth: nat, gutterStyle: string, reset: string)

  /** The layout for a file of `lineCount` lines: escape codes only when stdout takes colour. */
  function MakeLayout(originWidth: nat, lineCount: nat, colored: bool, gutterStyle: string): (l: Layout)
    ensures l.originWidth == originWidth && l.lineCountWidth == |NatToString(lineCount)|
    ensures !colored ==> l.gutterStyle == "" && l.reset == ""
    ensures colored ==> l.gutterStyle == gutterStyle && l.reset == RESET_CODE
  {
    Layout(originWidth, |NatToString(lineCount)|,
           if colored then gutterStyle else "", if colored then RESET_CODE else "")
  }

  /** One row of the output: the origin shown, the line number and the code. */
  datatype Row = Row(origin: string, lineNum: string, text: string)

  /** The separator column of a row: a space, the separator and a space. */
  const SEP_COLUMN: string := " " + SEP + " "

  lemma SepColumnWidth()
    ensures |SEP_COLUMN| == 3
  {
  }

  /** The gutter of a row: the origin padded to the origin width, the line number
      right-aligned to the line-count width, and the separator. */
  function Gutter(l: Layout, row: Row): string {
    PadRight(row.origin, l.originWidth) + (" " + PadLeft(row.lineNum, l.lineCountWidth) + SEP_COLUMN)
  }

  /** The text `blame` writes for a row. */
  function RowText(l: Layout, row: Row): string {
    l.gutterStyle + Gutter(l, row) + l.reset + row.text + "\n" + l.reset
  }

  /** When the origin and the line number fit their columns, the gutter occupies their
      widths and four more characters: two columns fewer than `GutterWidth` reserves. */
  lemma GutterColumns(l: Layout, row: Row)
    requires |row.origin| <= l.originWidth && |row.lineNum| <= l.lineCountWidth
    ensures |Gutter(l, row)| == l.originWidth + l.lineCountWidth + 4
    ensures Gutter(l, row)[..l.originWidth] == PadRight(row.origin, l.originWidth)
    ensures Gutter(l, row)[l.originWidth + 1..l.originWidth + 1 + l.lineCountWidth] ==
              PadLeft(row.lineNum, l.lineCountWidth)
  {
    var a := PadRight(row.origin, l.originWidth);
    var b := PadLeft(row.lineNum, l.lineCountWidth);
    GutterParts(a, b, SEP_COLUMN, l.originWidth, l.lineCountWidth);
    SepColumnWidth();
  }

  /** Where the parts of `a`, a space, `b` and `c` lie in their concatenation, for `a`
      of width `w` and `b` of width `v`. */
  lemma GutterParts(a: string, b: string, c: string, w: nat, v: nat)
    requires |a| == w && |b| == v
    ensures |a + (" " + b + c)| == w + v + 1 + |c|
    ensures (a + (" " + b + c))[..w] == a
    ensures (a + (" " + b + c))[w + 1..w + 1 + v] == b
  {
    var t := " " + b + c;
    assert (a + t)[w + 1..w + 1 + v] == t[1..1 + v];
    assert t[1..1 + v] == b;
  }

  /** A row whose origin and line number fill their columns is written without padding:
      the gutter style, the origin, a space, the line number, the separator between spaces,
      the reset, the code, a newline and a final reset. */
  lemma RowTextUnpadded(l: Layout, row: Row)
    requires |row.origin| == l.originWidth && |row.lineNum| == l.lineCountWidth
    ensures RowText(l, row) ==
              l.gutterStyle + row.origin + " " + row.lineNum + " " + SEP + " " + l.reset + row.text + "\n" + l.reset
  {
    assert PadRight(row.origin, l.originWidth) == row.origin;
    assert PadLeft(row.lineNum, l.lineCountWidth) == row.lineNum;
  }

  /** Without colour, the one row of a one-line file blamed on `HEAD` reads
      `HEAD 1 │ test('arg1');`. */
  lemma SingleLineRow(gutterStyle: string)
    ensures RowText(MakeLayout(4, 1, false, gutterStyle), Row("HEAD", "1", "test('arg1');")) ==
              "HEAD 1 \U{2502} test('arg1');\n"
  {
    var l := MakeLayout(4, 1, false, gutterStyle);
    assert NatToString(1) == "1";
    assert l == Layout(4, 1, "", "");
    RowTextUnpadded(l, Row("HEAD", "1", "test('arg1');"));
    SingleLineText();
  }

  lemma SingleLineText()
    ensures "" + "HEAD" + " " + "1" + " " + SEP + " " + "" + "test('arg1');" + "\n" + "" ==
              "HEAD 1 \U{2502} test('arg1');\n"
  {
  }

  /** The first line loses a leading byte order mark; no other line does. */
  function LineText(line: string, lineNum: nat): (s: string)
    ensures lineNum != 1 ==> s == line
    ensures lineNum == 1 && |line| > 0 && line[0] == BOM ==> s == line[1..]
    ensures lineNum == 1 && (|line| == 0 || line[0] != BOM) ==> s == line
  {
    if lineNum == 1 && |line| > 0 && line[0] == BOM then line[1..] else line
  }

  // ----- the highlighter -----

  /** A region syntect yields: a style and the text it colours. */
  datatype Region<S> = Region(style: S, text: string)

  /** The highlighting collaborators: syntect's line tokeniser over a parse state `P`, and
      the escape code of a body style. */
  datatype Syntax<!P, !S> = Syntax(tokenize: (P, string) -> Result<(P, seq<Region<S>>), string>,
                                 render: S -> string)

  /** What the row loop can fail with. */
  datatype RenderError =
    | Highlight(message: string)  // syntect's error
    | NoRegions                   // a long line tokenised into no region: the index panics
    | LineMismatch(lineNum: nat)  // the panic "Mismatch in line numbers"
    | NotAnnotated(id: ChangeId)  // the panic "all blame hunks are annotated"

  /** One region, escaped: its style, its text, the reset code. */
  function Piece<S>(r: Region<S>, render: S -> string): string {
    render(r.style) + r.text + RESET_CODE
  }

  /** The escaped regions one after the other. */
  function Escaped<S>(rs: seq<Region<S>>, render: S -> string): string
    decreases |rs|
  {
    if |rs| == 0 then "" else Escaped(rs[..|rs| - 1], render) + Piece(rs[|rs| - 1], render)
  }

  /** The escaped regions are the first one's escape followed by the rest's. */
  lemma {:induction false} EscapedFirst<S>(rs: seq<Region<S>>, render: S -> string)
    requires |rs| > 0
    ensures Escaped(rs, render) == Piece(rs[0], render) + Escaped(rs[1..], render)
    decreases |rs|
  {
    if |rs| > 1 {
      EscapedFirst(rs[..|rs| - 1], render);
      assert rs[..|rs| - 1][1..] == rs[1..][..|rs[1..]| - 1];
    } else {
      assert rs[..0] == [] && rs[1..] == [];
    }
  }

  /** `highlight_line`, given the parse state when highlighting is enabled: the new state
      and the line's text, or an error. */
  function HighlightSpec<P, S>(syn: Syntax<P, S>, state: Option<P>, line: string): (Option<P>, Result<string, RenderError>) {
    match state
    case None => (None, Ok(line))
    case Some(p) =>
      var tooLong := Utf8Len(line) > LONG_LINE_BYTES;
      match syn.tokenize(p, if tooLong then "\n" else line)
      case Err(e) => (state, Err(Highlight(e)))
      case Ok((next, ranges)) =>
        if tooLong && |ranges| == 0 then (Some(next), Err(NoRegions))
        else
          var rs := if tooLong then ranges[0 := Region(ranges[0].style, line)] else ranges;
          (Some(next), Ok(Escaped(rs, syn.render)))
  }

  /** Without highlighting a line comes back unchanged; with it, a line of more than 16 KiB
      is tokenised as "\n" and comes back whole in the first region's colours. */
  lemma HighlightKeepsText<P, S>(syn: Syntax<P, S>, state: Option<P>, line: string)
    ensures state.None? ==> HighlightSpec(syn, state, line) == (None, Ok(line))
    ensures state.Some? && Utf8Len(line) > LONG_LINE_BYTES && syn.tokenize(state.value, "\n").Ok? &&
            |syn.tokenize(state.value, "\n").value.1| > 0 ==>
              var ranges := syn.tokenize(state.value, "\n").value.1;
              HighlightSpec(syn, state, line).1 ==
                Ok(syn.render(ranges[0].style) + line + RESET_CODE + Escaped(ranges[1..], syn.render))
  {
    if state.Some? && Utf8Len(line) > LONG_LINE_BYTES && syn.tokenize(state.value, "\n").Ok? &&
       |syn.tokenize(state.value, "\n").value.1| > 0 {
      var ranges := syn.tokenize(state.value, "\n").value.1;
      var rs := ranges[0 := Region(ranges[0].style, line)];
      EscapedFirst(rs, syn.render);
      assert rs[1..] == ranges[1..];
    }
  }

  /** `Highlighter`: syntect's line highlighter and its parse state, or none. */
  class Highlighter<P> {
    var state: Option<P>

    /** `Highlighter::enabled`: highlighting from the syntax's initial parse state. */
    constructor Enabled(initial: P)
      ensures state == Some(initial)
    {
      state := Some(initial);
    }

    /** `Highlighter::disabled`. */
    constructor Disabled()
      ensures state == None
    {
      state := None;
    }

    /** `Highlighter::highlight_line`: escapes the line's regions one after the other. */
    method HighlightLine<S>(syn: Syntax<P, S>, line: string) returns (r: Result<string, RenderError>)
      modifies this
      ensures state == HighlightSpec(syn, old(state), line).0
      ensures r == HighlightSpec(syn, old(state), line).1
    {
      if state.None? {
        return Ok(line);
      }
      var tooLong := Utf8Len(line) > LONG_LINE_BYTES;
      var input := if tooLong then "\n" else line;
      var tokens := syn.tokenize(state.value, input);
      if tokens.Err? {
        return Err(Highlight(tokens.error));
      }
      var ranges := tokens.value.1;
      state := Some(tokens.value.0);
      if tooLong {
        if |ranges| == 0 {
          return Err(NoRegions);
        }
        ranges := ranges[0 := Region(ranges[0].style, line)];
      }
      var escaped := "";
      for k := 0 to |ranges|
        invariant escaped == Escaped(ranges[..k], syn.render)
      {
        assert ranges[..k + 1][..k] == ranges[..k];
        escaped := escaped + Piece(ranges[k], syn.render);
      }
      assert ranges[..|ranges|] == ranges;
      return Ok(escaped);
    }
  }

  // ----- the row loop -----

  /** Everything the row loop reads besides the lines: the highlighting collaborators,
      git2's hunk lookup by line number, the annotations, textwrap's wrapping and the code
      width it wraps to. */
  datatype Context<!P, !S> = Context(syn: Syntax<P, S>, hunkOf: nat -> Option<ChangeId>,
                                   notes: map<ChangeId, Annotation>,
                                   wrap: (string, nat) -> seq<string>, codeWidth: nat)

  /** One line of the loop: the new highlighter state, the hunk id of the last row written
      and the row this line writes, if any. */
  function RowStep<P, S>(ctx: Context<P, S>, line: string, lineNum: nat, hs: Option<P>, prev: ChangeId):
    (r: Result<(Option<P>, ChangeId, Option<Row>), RenderError>)
    ensures r.Ok? && r.value.2.Some? ==>
              r.value.2.value.lineNum == NatToString(lineNum) &&
              (r.value.2.value.origin == CONTINUATION ||
               (ctx.hunkOf(lineNum).Some? && ctx.hunkOf(lineNum).value in ctx.notes &&
                r.value.2.value.origin == Origin(ctx.notes[ctx.hunkOf(lineNum).value])))
  {
    var (next, highlighted) := HighlightSpec(ctx.syn, hs, LineText(line, lineNum));
    match highlighted
    case Err(e) => Err(e)
    case Ok(text) =>
      var visual := ctx.wrap(text, ctx.codeWidth);
      if |visual| == 0 then Ok((next, prev, None))
      else
        match ctx.hunkOf(lineNum)
        case None => Err(LineMismatch(lineNum))
        case Some(id) =>
          if id == prev then Ok((next, prev, Some(Row(CONTINUATION, NatToString(lineNum), visual[0]))))
          else if id in ctx.notes then Ok((next, id, Some(Row(Origin(ctx.notes[id]), NatToString(lineNum), visual[0]))))
          else Err(NotAnnotated(id))
  }

  function OptionSeq<T>(o: Option<T>): (s: seq<T>)
    ensures |s| <= 1
  {
    match o
    case None => []
    case Some(x) => [x]
  }

  /** The rows written for `lines`, numbered from `first`, after the rows `written`. */
  function RowsFrom<P, S>(ctx: Context<P, S>, lines: seq<string>, first: nat, hs: Option<P>,
                          prev: ChangeId, written: seq<Row>): (r: Result<seq<Row>, RenderError>)
    ensures r.Ok? ==> |written| <= |r.value| <= |written| + |lines|
    decreases |lines|
  {
    if |lines| == 0 then Ok(written)
    else
      match RowStep(ctx, lines[0], first, hs, prev)
      case Err(e) => Err(e)
      case Ok((next, last, row)) => RowsFrom(ctx, lines[1..], first + 1, next, last, written + OptionSeq(row))
  }

  /** The rows `blame` writes for the lines of a file. */
  function Rows<P, S>(ctx: Context<P, S>, lines: seq<string>, hs: Option<P>): Result<seq<Row>, RenderError> {
    RowsFrom(ctx, lines, 1, hs, ZERO_ID, [])
  }

  /** The highlighter's state once the row loop stops: after the last line, or after the
      line whose highlighting, hunk lookup or annotation failed (its highlighting has
      already moved the state on, unless it failed to tokenise). */
  function StateAfter<P, S>(ctx: Context<P, S>, lines: seq<string>, first: nat, hs: Option<P>,
                            prev: ChangeId): Option<P>
    decreases |lines|
  {
    if |lines| == 0 then hs
    else
      var next := HighlightSpec(ctx.syn, hs, LineText(lines[0], first)).0;
      match RowStep(ctx, lines[0], first, hs, prev)
      case Err(_) => next
      case Ok((_, last, _)) => StateAfter(ctx, lines[1..], first + 1, next, last)
  }

  /** The rows on the pager once the row loop stops: every row when it finishes, and the
      rows of the lines before the failing one when a line's highlighting, hunk lookup or
      annotation fails. */
  function WrittenFrom<P, S>(ctx: Context<P, S>, lines: seq<string>, first: nat, hs: Option<P>,
                             prev: ChangeId, written: seq<Row>): seq<Row>
    decreases |lines|
  {
    if |lines| == 0 then written
    else
      match RowStep(ctx, lines[0], first, hs, prev)
      case Err(_) => written
      case Ok((next, last, row)) => WrittenFrom(ctx, lines[1..], first + 1, next, last, written + OptionSeq(row))
  }

  /** The rows `blame` has written to the pager when its loop stops. */
  function Written<P, S>(ctx: Context<P, S>, lines: seq<string>, hs: Option<P>): seq<Row> {
    WrittenFrom(ctx, lines, 1, hs, ZERO_ID, [])
  }

  /** A loop that writes all its rows has written exactly them. */
  lemma {:induction false} WrittenOnSuccess<P, S>(ctx: Context<P, S>, lines: seq<string>, first: nat,
                                                  hs: Option<P>, prev: ChangeId, written: seq<Row>)
    requires RowsFrom(ctx, lines, first, hs, prev, written).Ok?
    ensures WrittenFrom(ctx, lines, first, hs, prev, written) == RowsFrom(ctx, lines, first, hs, prev, written).value
    decreases |lines|
  {
    if |lines| > 0 {
      var (next, last, row) := RowStep(ctx, lines[0], first, hs, prev).value;
      WrittenOnSuccess(ctx, lines[1..], first + 1, next, last, written + OptionSeq(row));
    }
  }

  /** When the first `k` lines render and line `k` (counting from 0) does not, the loop
      fails, and the rows on the pager are exactly those of the first `k` lines. */
  lemma {:induction false} WrittenStopsAt<P, S>(ctx: Context<P, S>, lines: seq<string>, k: nat, first: nat,
                                                hs: Option<P>, prev: ChangeId, written: seq<Row>)
    requires k < |lines|
    requires RowsFrom(ctx, lines[..k], first, hs, prev, written).Ok?
    requires RowsFrom(ctx, lines[..k + 1], first, hs, prev, written).Err?
    ensures RowsFrom(ctx, lines, first, hs, prev, written) == RowsFrom(ctx, lines[..k + 1], first, hs, prev, written)
    ensures WrittenFrom(ctx, lines, first, hs, prev, written) == RowsFrom(ctx, lines[..k], first, hs, prev, written).value
    decreases k
  {
    assert lines[..k + 1][0] == lines[0];
    var step := RowStep(ctx, lines[0], first, hs, prev);
    if k == 0 {
      assert lines[..1][1..] == [];
    } else {
      assert lines[..k][0] == lines[0];
      var (next, last, row) := step.value;
      assert lines[..k][1..] == lines[1..][..k - 1];
      assert lines[..k + 1][1..] == lines[1..][..k];
      WrittenStopsAt(ctx, lines[1..], k - 1, first + 1, next, last, written + OptionSeq(row));
    }
  }

  /** A loop that fails fails at some line `k` (counting from 0) after the lines before it
      rendered; the rows on the pager are then exactly those lines' rows. */
  lemma {:induction false} WrittenBeforeFailure<P, S>(ctx: Context<P, S>, lines: seq<string>, first: nat,
                                                      hs: Option<P>, prev: ChangeId, written: seq<Row>)
    requires RowsFrom(ctx, lines, first, hs, prev, written).Err?
    ensures exists k :: 0 <= k < |lines| &&
              RowsFrom(ctx, lines[..k], first, hs, prev, written).Ok? &&
              RowsFrom(ctx, lines[..k + 1], first, hs, prev, written).Err? &&
              WrittenFrom(ctx, lines, first, hs, prev, written) == RowsFrom(ctx, lines[..k], first, hs, prev, written).value
    decreases |lines|
  {
    var k := FailingLine(ctx, lines, first, hs, prev, written);
    WrittenStopsAt(ctx, lines, k, first, hs, prev, written);
  }

  /** Without highlighting, a loop whose last line has no hunk fails there with
      `LineMismatch` of that line's number, after every line before it rendered. */
  lemma {:induction false} PlainFailsAtMismatch<P, S>(ctx: Context<P, S>, lines: seq<string>, first: nat,
                                                      prev: ChangeId, written: seq<Row>)
    requires WrapsEveryLine(ctx) && |lines| > 0
    requires forall n :: first <= n < first + |lines| - 1 ==> ctx.hunkOf(n).Some? && ctx.hunkOf(n).value in ctx.notes
    requires ctx.hunkOf(first + |lines| - 1).None?
    ensures RowsFrom(ctx, lines, first, None, prev, written) == Err(LineMismatch(first + |lines| - 1))
    decreases |lines|
  {
    HighlightKeepsText(ctx.syn, None, LineText(lines[0], first));
    assert |ctx.wrap(LineText(lines[0], first), ctx.codeWidth)| > 0;
    if |lines| > 1 {
      var (next, last, row) := RowStep(ctx, lines[0], first, None, prev).value;
      PlainFailsAtMismatch(ctx, lines[1..], first + 1, last, written + OptionSeq(row));
    }
  }

  /** Without highlighting, when lines 1 to `k` have annotated hunks and line `k + 1` has
      none, `blame` fails with `LineMismatch(k + 1)`, and the pager has already received one
      row for each of lines 1 to `k`, in order. */
  lemma PlainMismatchKeepsEarlierRows<P, S>(ctx: Context<P, S>, lines: seq<string>, k: nat)
    requires WrapsEveryLine(ctx) && k < |lines|
    requires forall n :: 1 <= n <= k ==> ctx.hunkOf(n).Some? && ctx.hunkOf(n).value in ctx.notes
    requires ctx.hunkOf(k + 1).None?
    ensures Rows(ctx, lines, None) == Err(LineMismatch(k + 1))
    ensures var w := Written(ctx, lines, None);
            |w| == k &&
            forall j :: 0 <= j < k ==>
              w[j] == PlainRow(ctx, lines[j], 1 + j, if j == 0 then ZERO_ID else ctx.hunkOf(j).value)
  {
    PlainRows(ctx, lines[..k], 1, ZERO_ID, []);
    assert |lines[..k + 1]| == k + 1;
    PlainFailsAtMismatch(ctx, lines[..k + 1], 1, ZERO_ID, []);
    WrittenStopsAt(ctx, lines, k, 1, None, ZERO_ID, []);
    var w := Written(ctx, lines, None);
    forall j | 0 <= j < k
      ensures w[j] == PlainRow(ctx, lines[j], 1 + j, if j == 0 then ZERO_ID else ctx.hunkOf(j).value)
    {
      assert lines[..k][j] == lines[j];
    }
  }

  /** The index of the line at which a failing loop fails. */
  ghost function FailingLine<P, S>(ctx: Context<P, S>, lines: seq<string>, first: nat,
                                   hs: Option<P>, prev: ChangeId, written: seq<Row>): (k: nat)
    requires RowsFrom(ctx, lines, first, hs, prev, written).Err?
    ensures k < |lines|
    ensures RowsFrom(ctx, lines[..k], first, hs, prev, written).Ok?
    ensures RowsFrom(ctx, lines[..k + 1], first, hs, prev, written).Err?
    decreases |lines|
  {
    assert lines[..1][0] == lines[0] && lines[..1][1..] == [];
    match RowStep(ctx, lines[0], first, hs, prev)
    case Err(_) => 0
    case Ok((next, last, row)) =>
      var j := FailingLine(ctx, lines[1..], first + 1, next, last, written + OptionSeq(row));
      assert lines[..j + 1][0] == lines[0] && lines[..j + 1][1..] == lines[1..][..j];
      assert lines[..j + 2][0] == lines[0] && lines[..j + 2][1..] == lines[1..][..j + 1];
      j + 1
  }

  /** The parse state after highlighting the lines one after the other. */
  function HighlightState<P, S>(syn: Syntax<P, S>, hs: Option<P>, lines: seq<string>, first: nat): Option<P>
    decreases |lines|
  {
    if |lines| == 0 then hs
    else HighlightState(syn, HighlightSpec(syn, hs, LineText(lines[0], first)).0, lines[1..], first + 1)
  }

  /** A loop that writes all its rows leaves the state that highlighting every line, one
      after the other, leaves. */
  lemma {:induction false} StateAfterRows<P, S>(ctx: Context<P, S>, lines: seq<string>, first: nat,
                                                hs: Option<P>, prev: ChangeId, written: seq<Row>)
    requires RowsFrom(ctx, lines, first, hs, prev, written).Ok?
    ensures StateAfter(ctx, lines, first, hs, prev) == HighlightState(ctx.syn, hs, lines, first)
    decreases |lines|
  {
    if |lines| > 0 {
      var step := RowStep(ctx, lines[0], first, hs, prev);
      var next := HighlightSpec(ctx.syn, hs, LineText(lines[0], first)).0;
      assert step.Ok?;
      var (n, last, row) := step.value;
      assert n == next;
      assert RowsFrom(ctx, lines, first, hs, prev, written) ==
               RowsFrom(ctx, lines[1..], first + 1, next, last, written + OptionSeq(row));
      StateAfterRows(ctx, lines[1..], first + 1, next, last, written + OptionSeq(row));
      assert StateAfter(ctx, lines, first, hs, prev) == StateAfter(ctx, lines[1..], first + 1, next, last);
    }
  }

  /** Without highlighting the state stays empty, whether the loop fails or not. */
  lemma {:induction false} StateAfterPlain<P, S>(ctx: Context<P, S>, lines: seq<string>, first: nat, prev: ChangeId)
    ensures StateAfter(ctx, lines, first, None, prev) == None
    decreases |lines|
  {
    if |lines| > 0 {
      HighlightKeepsText(ctx.syn, None, LineText(lines[0], first));
      var step := RowStep(ctx, lines[0], first, None, prev);
      if step.Ok? {
        StateAfterPlain(ctx, lines[1..], first + 1, step.value.1);
      }
    }
  }

  /** The row loop of `blame`: highlights each line, wraps it, writes its first wrapped
      sub-line after the gutter, and shows a line's origin only when its hunk differs from
      the previous row's. */
  method Render<P, S>(ctx: Context<P, S>, lines: seq<string>, h: Highlighter<P>)
    returns (r: Result<seq<Row>, RenderError>, rows: seq<Row>)
    modifies h
    ensures r == Rows(ctx, lines, old(h.state))
    ensures rows == Written(ctx, lines, old(h.state))
    ensures h.state == StateAfter(ctx, lines, 1, old(h.state), ZERO_ID)
  {
    rows := [];
    var prev := ZERO_ID;
    ghost var goal := Rows(ctx, lines, h.state);
    ghost var shown := Written(ctx, lines, h.state);
    ghost var last := StateAfter(ctx, lines, 1, h.state, ZERO_ID);
    for i := 0 to |lines|
      invariant goal == RowsFrom(ctx, lines[i..], i + 1, h.state, prev, rows)
      invariant shown == WrittenFrom(ctx, lines[i..], i + 1, h.state, prev, rows)
      invariant last == StateAfter(ctx, lines[i..], i + 1, h.state, prev)
    {
      var lineNum := i + 1;
      ghost var step := RowStep(ctx, lines[i], lineNum, h.state, prev);
      RowsFromStep(ctx, lines, i, h.state, prev, rows);
      WrittenFromStep(ctx, lines, i, h.state, prev, rows);
      StateAfterStep(ctx, lines, i, h.state, prev);
      var highlighted := h.HighlightLine(ctx.syn, LineText(lines[i], lineNum));
      if highlighted.Err? {
        return Err(highlighted.error), rows;
      }
      var visual := ctx.wrap(highlighted.value, ctx.codeWidth);
      if |visual| > 0 {
        var hunk := ctx.hunkOf(lineNum);
        if hunk.None? {
          return Err(LineMismatch(lineNum)), rows;
        }
        var origin := CONTINUATION;
        if hunk.value != prev {
          prev := hunk.value;
          if prev !in ctx.notes {
            return Err(NotAnnotated(prev)), rows;
          }
          origin := Origin(ctx.notes[prev]);
        }
        assert step == Ok((h.state, prev, Some(Row(origin, NatToString(lineNum), visual[0]))));
        rows := rows + [Row(origin, NatToString(lineNum), visual[0])];
      } else {
        assert step == Ok((h.state, prev, None));
        assert rows + OptionSeq(None) == rows;
      }
    }
    assert lines[|lines|..] == [];
    return Ok(rows), rows;
  }

  /** The rows from line `i` on are those of line `i`'s step, then those of the lines after. */
  lemma RowsFromStep<P, S>(ctx: Context<P, S>, lines: seq<string>, i: nat, hs: Option<P>,
                           prev: ChangeId, written: seq<Row>)
    requires i < |lines|
    ensures RowsFrom(ctx, lines[i..], i + 1, hs, prev, written) ==
              match RowStep(ctx, lines[i], i + 1, hs, prev)
              case Err(e) => Err(e)
              case Ok((next, last, row)) => RowsFrom(ctx, lines[i + 1..], i + 2, next, last, written + OptionSeq(row))
  {
    assert lines[i..][0] == lines[i] && lines[i..][1..] == lines[i + 1..];
  }

  /** The state the loop leaves from line `i` on: that of line `i`'s step when it fails,
      else that of the lines after. */
  lemma StateAfterStep<P, S>(ctx: Context<P, S>, lines: seq<string>, i: nat, hs: Option<P>, prev: ChangeId)
    requires i < |lines|
    ensures StateAfter(ctx, lines[i..], i + 1, hs, prev) ==
              match RowStep(ctx, lines[i], i + 1, hs, prev)
              case Err(_) => HighlightSpec(ctx.syn, hs, LineText(lines[i], i + 1)).0
              case Ok((next, last, _)) => StateAfter(ctx, lines[i + 1..], i + 2, next, last)
  {
    assert lines[i..][0] == lines[i] && lines[i..][1..] == lines[i + 1..];
  }

  /** The rows on the pager from line `i` on: none more when line `i`'s step fails, else
      that step's row and then the rows of the lines after. */
  lemma WrittenFromStep<P, S>(ctx: Context<P, S>, lines: seq<string>, i: nat, hs: Option<P>,
                              prev: ChangeId, written: seq<Row>)
    requires i < |lines|
    ensures WrittenFrom(ctx, lines[i..], i + 1, hs, prev, written) ==
              match RowStep(ctx, lines[i], i + 1, hs, prev)
              case Err(_) => written
              case Ok((next, last, row)) => WrittenFrom(ctx, lines[i + 1..], i + 2, next, last, written + OptionSeq(row))
  {
    assert lines[i..][0] == lines[i] && lines[i..][1..] == lines[i + 1..];
  }

  /** textwrap gives at least one line for every text. */
  ghost predicate WrapsEveryLine<P, S>(ctx: Context<P, S>) {
    forall s :: |ctx.wrap(s, ctx.codeWidth)| > 0
  }

  /** The row a line writes once highlighted to `text`: the origin of its hunk unless the
      previous row's hunk is the same, the line number, and the first wrapped sub-line. */
  ghost function LineRow<P, S>(ctx: Context<P, S>, text: string, n: nat, prev: ChangeId): Row
    requires ctx.hunkOf(n).Some? && ctx.hunkOf(n).value in ctx.notes && WrapsEveryLine(ctx)
  {
    var id := ctx.hunkOf(n).value;
    Row(if id == prev then CONTINUATION else Origin(ctx.notes[id]),
        NatToString(n), ctx.wrap(text, ctx.codeWidth)[0])
  }

  /** The row of line `n` when highlighting is off: its text is the line itself (less a
      leading byte order mark on line 1). */
  ghost function PlainRow<P, S>(ctx: Context<P, S>, line: string, n: nat, prev: ChangeId): Row
    requires ctx.hunkOf(n).Some? && ctx.hunkOf(n).value in ctx.notes && WrapsEveryLine(ctx)
  {
    LineRow(ctx, LineText(line, n), n, prev)
  }

  /** The lines highlighted one after the other, each from the state the line before left,
      or the first line's error. */
  function Highlighted<P, S>(syn: Syntax<P, S>, hs: Option<P>, lines: seq<string>, first: nat):
    (r: Result<seq<string>, RenderError>)
    ensures r.Ok? ==> |r.value| == |lines|
    decreases |lines|
  {
    if |lines| == 0 then Ok([])
    else
      var (next, text) := HighlightSpec(syn, hs, LineText(lines[0], first));
      match text
      case Err(e) => Err(e)
      case Ok(t) =>
        match Highlighted(syn, next, lines[1..], first + 1)
        case Err(e) => Err(e)
        case Ok(rest) => Ok([t] + rest)
  }

  /** `rows`, from position `base` on, hold the rows of lines `first`, `first + 1`, ...
      highlighted to `texts`: row `base + k` is line `first + k`'s, and shows its origin only
      when the hunk differs from the row before (`prev` for the first). */
  ghost predicate RowsFollow<P, S>(ctx: Context<P, S>, rows: seq<Row>, base: nat, texts: seq<string>,
                                   first: nat, prev: ChangeId)
  {
    WrapsEveryLine(ctx) &&
    (forall n :: first <= n < first + |texts| ==> ctx.hunkOf(n).Some? && ctx.hunkOf(n).value in ctx.notes) &&
    base + |texts| <= |rows| &&
    forall k :: 0 <= k < |texts| ==>
      rows[base + k] == LineRow(ctx, texts[k], first + k, if k == 0 then prev else ctx.hunkOf(first + k - 1).value)
  }

  /** The first row followed by the rows of the lines after it. */
  lemma RowsFollowStep<P, S>(ctx: Context<P, S>, rows: seq<Row>, base: nat, texts: seq<string>,
                             first: nat, prev: ChangeId)
    requires |texts| > 0 && WrapsEveryLine(ctx)
    requires ctx.hunkOf(first).Some? && ctx.hunkOf(first).value in ctx.notes
    requires base < |rows| && rows[base] == LineRow(ctx, texts[0], first, prev)
    requires RowsFollow(ctx, rows, base + 1, texts[1..], first + 1, ctx.hunkOf(first).value)
    ensures RowsFollow(ctx, rows, base, texts, first, prev)
  {
    forall k | 0 <= k < |texts|
      ensures rows[base + k] ==
                LineRow(ctx, texts[k], first + k, if k == 0 then prev else ctx.hunkOf(first + k - 1).value)
    {
      if k > 0 {
        var j := k - 1;
        assert texts[1..][j] == texts[k];
        assert base + 1 + j == base + k;
      }
    }
  }

  /** Whatever the highlighter's state, when every line highlights, every line writes
      exactly one row, in order: row `k` holds line `first + k`'s number and the first
      wrapped sub-line of its highlighted text, and shows its origin only when the hunk
      differs from the row before. */
  lemma {:induction false} OneRowPerLine<P, S>(ctx: Context<P, S>, lines: seq<string>, first: nat,
                                               hs: Option<P>, prev: ChangeId, written: seq<Row>)
    requires WrapsEveryLine(ctx)
    requires forall n :: first <= n < first + |lines| ==> ctx.hunkOf(n).Some? && ctx.hunkOf(n).value in ctx.notes
    requires Highlighted(ctx.syn, hs, lines, first).Ok?
    ensures RowsFrom(ctx, lines, first, hs, prev, written).Ok?
    ensures var rows := RowsFrom(ctx, lines, first, hs, prev, written).value;
            |rows| == |written| + |lines| && rows[..|written|] == written &&
            RowsFollow(ctx, rows, |written|, Highlighted(ctx.syn, hs, lines, first).value, first, prev)
    decreases |lines|
  {
    if |lines| > 0 {
      var next := HighlightSpec(ctx.syn, hs, LineText(lines[0], first)).0;
      HighlightedStep(ctx.syn, hs, lines, first);
      var id := ctx.hunkOf(first).value;
      var texts := Highlighted(ctx.syn, hs, lines, first).value;
      var rest := Highlighted(ctx.syn, next, lines[1..], first + 1).value;
      var row := LineRow(ctx, texts[0], first, prev);
      var more := written + [row];
      LineStep(ctx, lines, first, hs, prev, written, texts[0]);
      OneRowPerLine(ctx, lines[1..], first + 1, next, id, more);
      RowsJoin(ctx, RowsFrom(ctx, lines[1..], first + 1, next, id, more).value, written, texts, |more|, rest,
               first, prev);
    } else {
      assert Highlighted(ctx.syn, hs, lines, first).value == [];
    }
  }

  /** The rows after `written` and the first line's row follow from the rows of the lines
      after it. */
  lemma RowsJoin<P, S>(ctx: Context<P, S>, rows: seq<Row>, written: seq<Row>, texts: seq<string>,
                       base: nat, rest: seq<string>, first: nat, prev: ChangeId)
    requires |texts| > 0 && WrapsEveryLine(ctx) && base == |written| + 1 && rest == texts[1..]
    requires ctx.hunkOf(first).Some? && ctx.hunkOf(first).value in ctx.notes
    requires base <= |rows| && rows[..base] == written + [LineRow(ctx, texts[0], first, prev)]
    requires RowsFollow(ctx, rows, base, rest, first + 1, ctx.hunkOf(first).value)
    ensures rows[..|written|] == written && RowsFollow(ctx, rows, |written|, texts, first, prev)
  {
    assert rows[..|written| + 1][|written|] == rows[|written|];
    RowsFollowStep(ctx, rows, |written|, texts, first, prev);
    assert rows[..|written| + 1][..|written|] == rows[..|written|];
  }

  /** When all lines highlight, so does the first, and so do the rest from the state it
      leaves. */
  lemma HighlightedStep<P, S>(syn: Syntax<P, S>, hs: Option<P>, lines: seq<string>, first: nat)
    requires |lines| > 0 && Highlighted(syn, hs, lines, first).Ok?
    ensures var step := HighlightSpec(syn, hs, LineText(lines[0], first));
            var rest := Highlighted(syn, step.0, lines[1..], first + 1);
            step.1.Ok? && rest.Ok? && Highlighted(syn, hs, lines, first).value == [step.1.value] + rest.value
    ensures var texts := Highlighted(syn, hs, lines, first).value;
            var rest := Highlighted(syn, HighlightSpec(syn, hs, LineText(lines[0], first)).0, lines[1..], first + 1);
            Ok(texts[0]) == HighlightSpec(syn, hs, LineText(lines[0], first)).1 && texts[1..] == rest.value
  {
    var texts := Highlighted(syn, hs, lines, first).value;
    assert texts[1..] == ([texts[0]] + texts[1..])[1..];
  }

  /** A line that highlights writes its row and moves on to the next line. */
  lemma LineStep<P, S>(ctx: Context<P, S>, lines: seq<string>, first: nat, hs: Option<P>, prev: ChangeId,
                       written: seq<Row>, text: string)
    requires WrapsEveryLine(ctx) && |lines| > 0
    requires ctx.hunkOf(first).Some? && ctx.hunkOf(first).value in ctx.notes
    requires Ok(text) == HighlightSpec(ctx.syn, hs, LineText(lines[0], first)).1
    ensures RowsFrom(ctx, lines, first, hs, prev, written) ==
              RowsFrom(ctx, lines[1..], first + 1, HighlightSpec(ctx.syn, hs, LineText(lines[0], first)).0,
                       ctx.hunkOf(first).value, written + [LineRow(ctx, text, first, prev)])
  {
    var next := HighlightSpec(ctx.syn, hs, LineText(lines[0], first)).0;
    var row := LineRow(ctx, text, first, prev);
    assert RowStep(ctx, lines[0], first, hs, prev) == Ok((next, ctx.hunkOf(first).value, Some(row)));
  }

  /** Without highlighting every line highlights to itself (less a leading byte order mark
      on line 1). */
  lemma {:induction false} HighlightedPlain<P, S>(syn: Syntax<P, S>, lines: seq<string>, first: nat)
    ensures Highlighted(syn, None, lines, first).Ok?
    ensures forall k :: 0 <= k < |lines| ==> Highlighted(syn, None, lines, first).value[k] == LineText(lines[k], first + k)
    decreases |lines|
  {
    if |lines| > 0 {
      HighlightedPlain(syn, lines[1..], first + 1);
      var texts := Highlighted(syn, None, lines, first).value;
      var rest := Highlighted(syn, None, lines[1..], first + 1).value;
      assert texts == [LineText(lines[0], first)] + rest;
      forall k | 0 < k < |lines|
        ensures texts[k] == LineText(lines[k], first + k)
      {
        assert lines[1..][k - 1] == lines[k];
      }
    }
  }

  /** Without highlighting, every line writes exactly one row, in order: row `k` is line
      `first + k`'s, and shows its origin only when the hunk differs from the row before. */
  lemma PlainRows<P, S>(ctx: Context<P, S>, lines: seq<string>, first: nat,
                        prev: ChangeId, written: seq<Row>)
    requires WrapsEveryLine(ctx)
    requires forall n :: first <= n < first + |lines| ==> ctx.hunkOf(n).Some? && ctx.hunkOf(n).value in ctx.notes
    ensures RowsFrom(ctx, lines, first, None, prev, written).Ok?
    ensures var rows := RowsFrom(ctx, lines, first, None, prev, written).value;
            |rows| == |written| + |lines| && rows[..|written|] == written &&
            forall k :: 0 <= k < |lines| ==>
              rows[|written| + k] ==
                PlainRow(ctx, lines[k], first + k, if k == 0 then prev else ctx.hunkOf(first + k - 1).value)
  {
    HighlightedPlain(ctx.syn, lines, first);
    OneRowPerLine(ctx, lines, first, None, prev, written);
  }

  /** The command-line test's repository: one commit `c` blamed for the whole one-line file
      and yielded first by the walk from `HEAD`. The walk labels it "HEAD", and the file's
      one row shows that label, the line number 1 and the line. */
  lemma SingleCommitFile<P, S>(ctx: Context<P, S>, c: ChangeId, short: string, shortOf: ChangeId -> string)
    requires c != ZERO_ID
    requires ctx.notes == Relabel(map[c := Annotation(short, None)], [c], StrippedRevset("HEAD").head,
                                  StrippedRevset("HEAD").offset, shortOf, StepsTaken({c}, [c]))
    requires ctx.hunkOf(1) == Some(c)
    requires forall s :: ctx.wrap(s, ctx.codeWidth) == [s]
    ensures Rows(ctx, ["test('arg1');"], None) == Ok([Row("HEAD", "1", "test('arg1');")])
  {
    NoTildeIsItsOwnHead("HEAD");
    assert StepsTaken({c}, [c]) == 1;
    assert ctx.notes == map[c := Annotation(short, Some("HEAD"))];
    var line := "test('arg1');";
    assert LineText(line, 1) == line;
    assert NatToString(1) == "1";
    var row := Row("HEAD", "1", line);
    assert RowStep(ctx, line, 1, None, ZERO_ID) == Ok((None, c, Some(row)));
    assert [line][0] == line && [line][1..] == [];
    assert Rows(ctx, [line], None) == RowsFrom(ctx, [], 2, None, c, [] + [row]);
    assert [] + [row] == [row];
  }

  // ----- the body of `blame` -----

  /** What `blame` learns about where it writes: the terminal's width if there is a
      terminal, `COLUMNS`, whether stdout takes colour, and the gutter style's escape code
      from the theme. */
  datatype Screen = Screen(terminal: Option<U16>, columns: Option<string>, colored: bool, gutterStyle: string)

  /** The context the row loop runs in: the code width is what the terminal width leaves
      beside the gutter that the table's origins and the line count need. */
  ghost function BlameContext<P, S>(screen: Screen, syn: Syntax<P, S>, hunkOf: nat -> Option<ChangeId>,
                                    notes: map<ChangeId, Annotation>, wrap: (string, nat) -> seq<string>,
                                    lineCount: nat): Context<P, S>
  {
    Context(syn, hunkOf, notes, wrap,
            CodeWidth(TotalWidth(screen.terminal, screen.columns), GutterWidth(MaxOriginWidth(notes), lineCount)))
  }

  /** The layout of the rows: the origin column as wide as the longest origin, the
      line-number column as wide as the line count. */
  ghost function BlameLayout(screen: Screen, notes: map<ChangeId, Annotation>, lineCount: nat): Layout {
    MakeLayout(MaxOriginWidth(notes), lineCount, screen.colored, screen.gutterStyle)
  }

  /** The highlighter starts enabled, from the syntax's initial state, exactly when stdout
      takes colour. */
  function StartState<P>(colored: bool, initial: P): (hs: Option<P>)
    ensures hs.Some? <==> colored
    ensures colored ==> hs.value == initial
  {
    if colored then Some(initial) else None
  }

  /** The texts of the rows, one after the other. */
  function Joined(l: Layout, rows: seq<Row>): string
    decreases |rows|
  {
    if |rows| == 0 then "" else RowText(l, rows[0]) + Joined(l, rows[1..])
  }

  /** What `blame` writes for the lines of the file: the rows of the loop, laid out at the
      widths it computes. */
  ghost function BlameText<P, S>(screen: Screen, syn: Syntax<P, S>, initial: P, hunkOf: nat -> Option<ChangeId>,
                                 notes: map<ChangeId, Annotation>, wrap: (string, nat) -> seq<string>,
                                 lines: seq<string>): Result<string, RenderError>
  {
    match Rows(BlameContext(screen, syn, hunkOf, notes, wrap, |lines|), lines, StartState(screen.colored, initial))
    case Err(e) => Err(e)
    case Ok(rows) => Ok(Joined(BlameLayout(screen, notes, |lines|), rows))
  }

  /** What the pager has received when `blame` stops: the texts of the rows written, also
      when a later line failed. */
  ghost function BlameShown<P, S>(screen: Screen, syn: Syntax<P, S>, initial: P, hunkOf: nat -> Option<ChangeId>,
                                  notes: map<ChangeId, Annotation>, wrap: (string, nat) -> seq<string>,
                                  lines: seq<string>): string
  {
    Joined(BlameLayout(screen, notes, |lines|),
           Written(BlameContext(screen, syn, hunkOf, notes, wrap, |lines|), lines, StartState(screen.colored, initial)))
  }

  /** A `blame` that succeeds has shown exactly the text it answers. */
  lemma BlameShownOnSuccess<P, S>(screen: Screen, syn: Syntax<P, S>, initial: P, hunkOf: nat -> Option<ChangeId>,
                                  notes: map<ChangeId, Annotation>, wrap: (string, nat) -> seq<string>,
                                  lines: seq<string>)
    ensures BlameText(screen, syn, initial, hunkOf, notes, wrap, lines).Ok? ==>
              BlameShown(screen, syn, initial, hunkOf, notes, wrap, lines) ==
                BlameText(screen, syn, initial, hunkOf, notes, wrap, lines).value
  {
    var ctx := BlameContext(screen, syn, hunkOf, notes, wrap, |lines|);
    if Rows(ctx, lines, StartState(screen.colored, initial)).Ok? {
      WrittenOnSuccess(ctx, lines, 1, StartState(screen.colored, initial), ZERO_ID, []);
    }
  }

  /** The rendering half of `blame`: the widths, the highlighter chosen by colour, the
      escape codes, then the row loop. It answers the text or the error, and `shown` is
      what the pager has received by then. */
  method RenderBlame<P, S>(screen: Screen, syn: Syntax<P, S>, initial: P, hunkOf: nat -> Option<ChangeId>,
                           notes: map<ChangeId, Annotation>, wrap: (string, nat) -> seq<string>,
                           lines: seq<string>) returns (r: Result<string, RenderError>, shown: string)
    ensures r == BlameText(screen, syn, initial, hunkOf, notes, wrap, lines)
    ensures shown == BlameShown(screen, syn, initial, hunkOf, notes, wrap, lines)
    ensures r.Ok? ==> shown == r.value
  {
    var lineCount := |lines|;
    var totalWidth := TotalWidth(screen.terminal, screen.columns);
    var originWidth := OriginWidth(notes);
    var gutterWidth := GutterWidth(originWidth, lineCount);
    var codeWidth := CodeWidth(totalWidth, gutterWidth);
    var h: Highlighter<P>;
    if screen.colored {
      h := new Highlighter.Enabled(initial);
    } else {
      h := new Highlighter.Disabled();
    }
    var layout := MakeLayout(originWidth, lineCount, screen.colored, screen.gutterStyle);
    var ctx := Context(syn, hunkOf, notes, wrap, codeWidth);
    var rows, written := Render(ctx, lines, h);
    shown := Joined(layout, written);
    BlameShownOnSuccess(screen, syn, initial, hunkOf, notes, wrap, lines);
    if rows.Err? {
      return Err(rows.error), shown;
    }
    return Ok(Joined(layout, rows.value)), shown;
  }

  /** A row fits its columns: the line number within the line count's digits, and the
      origin, unless it is `⋮`, within the origin width. */
  ghost predicate RowFits(row: Row, notes: map<ChangeId, Annotation>, lineCount: nat) {
    |row.lineNum| <= |NatToString(lineCount)| &&
    (row.origin == CONTINUATION || |row.origin| <= MaxOriginWidth(notes))
  }

  ghost predicate AllFit(rows: seq<Row>, notes: map<ChangeId, Annotation>, lineCount: nat) {
    forall k :: 0 <= k < |rows| ==> RowFits(rows[k], notes, lineCount)
  }

  /** The row a line numbered within the file writes fits its columns. */
  lemma RowStepFits<P, S>(ctx: Context<P, S>, line: string, n: nat, hs: Option<P>, prev: ChangeId, lineCount: nat)
    requires 1 <= n <= lineCount
    ensures RowStep(ctx, line, n, hs, prev).Ok? && RowStep(ctx, line, n, hs, prev).value.2.Some? ==>
              RowFits(RowStep(ctx, line, n, hs, prev).value.2.value, ctx.notes, lineCount)
  {
    var r := RowStep(ctx, line, n, hs, prev);
    if r.Ok? && r.value.2.Some? {
      var row := r.value.2.value;
      NatToStringMonotone(n, lineCount);
      if row.origin != CONTINUATION {
        var o := Origin(ctx.notes[ctx.hunkOf(n).value]);
        assert |o| <= Utf8Len(o) <= MaxOriginWidth(ctx.notes);
      }
    }
  }

  /** Every row the loop writes for lines numbered within the file fits its columns. */
  lemma {:induction false} RowsFromFit<P, S>(ctx: Context<P, S>, lines: seq<string>, first: nat, hs: Option<P>,
                                             prev: ChangeId, written: seq<Row>, lineCount: nat)
    requires 1 <= first && first + |lines| <= lineCount + 1
    requires AllFit(written, ctx.notes, lineCount)
    ensures RowsFrom(ctx, lines, first, hs, prev, written).Ok? ==>
              AllFit(RowsFrom(ctx, lines, first, hs, prev, written).value, ctx.notes, lineCount)
    decreases |lines|
  {
    if |lines| > 0 {
      var step := RowStep(ctx, lines[0], first, hs, prev);
      if step.Ok? {
        var (next, last, row) := step.value;
        RowStepFits(ctx, lines[0], first, hs, prev, lineCount);
        var more := written + OptionSeq(row);
        assert AllFit(more, ctx.notes, lineCount) by {
          forall k | 0 <= k < |more| ensures RowFits(more[k], ctx.notes, lineCount) {
            if k >= |written| {
              assert more[k] == row.value;
            }
          }
        }
        RowsFromFit(ctx, lines[1..], first + 1, next, last, more, lineCount);
      }
    }
  }

  /** Every row `blame` writes fits the columns it computed: its line number within the
      line-number column, and its origin, unless it is `⋮`, within the origin column; so
      each gutter is the padded origin, a space, the right-aligned line number and the
      separator, two columns narrower than the gutter width. */
  lemma BlameRowsFit<P, S>(screen: Screen, syn: Syntax<P, S>, initial: P, hunkOf: nat -> Option<ChangeId>,
                           notes: map<ChangeId, Annotation>, wrap: (string, nat) -> seq<string>,
                           lines: seq<string>)
    ensures var ctx := BlameContext(screen, syn, hunkOf, notes, wrap, |lines|);
            var rows := Rows(ctx, lines, StartState(screen.colored, initial));
            var l := BlameLayout(screen, notes, |lines|);
            rows.Ok? ==>
              forall k :: 0 <= k < |rows.value| ==>
                |rows.value[k].lineNum| <= l.lineCountWidth &&
                (rows.value[k].origin == CONTINUATION || |rows.value[k].origin| <= l.originWidth)
    ensures var l := BlameLayout(screen, notes, |lines|);
            GutterWidth(l.originWidth, |lines|) == l.originWidth + l.lineCountWidth + 6
  {
    var ctx := BlameContext(screen, syn, hunkOf, notes, wrap, |lines|);
    RowsFromFit(ctx, lines, 1, StartState(screen.colored, initial), ZERO_ID, [], |lines|);
    GutterWidthSpec(MaxOriginWidth(notes), |lines|);
  }

  /** "HEAD" takes four bytes. */
  lemma HeadWidth()
    ensures Utf8Len("HEAD") == 4
  {
    assert "HEAD"[1..] == "EAD" && "EAD"[1..] == "AD" && "AD"[1..] == "D" && "D"[1..] == "";
  }

  /** The command-line test end to end: without colour, a one-line file whose one commit is
      yielded first by the walk from `HEAD` is written as `HEAD 1 │ test('arg1');`, the
      origin column four wide because "HEAD" is the table's only origin. */
  lemma SingleCommitOutput<P, S>(screen: Screen, syn: Syntax<P, S>, initial: P, hunkOf: nat -> Option<ChangeId>,
                                 notes: map<ChangeId, Annotation>, c: ChangeId, short: string,
                                 shortOf: ChangeId -> string, wrap: (string, nat) -> seq<string>)
    requires !screen.colored && c != ZERO_ID && hunkOf(1) == Some(c)
    requires notes == Relabel(map[c := Annotation(short, None)], [c], StrippedRevset("HEAD").head,
                              StrippedRevset("HEAD").offset, shortOf, StepsTaken({c}, [c]))
    requires forall s, w :: wrap(s, w) == [s]
    ensures BlameText(screen, syn, initial, hunkOf, notes, wrap, ["test('arg1');"]) ==
              Ok("HEAD 1 \U{2502} test('arg1');\n")
  {
    var line := "test('arg1');";
    var ctx := BlameContext(screen, syn, hunkOf, notes, wrap, 1);
    assert Rows(ctx, [line], None) == Ok([Row("HEAD", "1", line)]) by {
      SingleCommitFile(ctx, c, short, shortOf);
    }
    SingleCommitNotes(c, short, shortOf);
    HeadRowOutput(screen, syn, initial, hunkOf, notes, wrap, c, Annotation(short, Some("HEAD")));
  }

  /** A table whose one origin is "HEAD" and a loop that writes its one row: the output is
      that row at an origin column four wide. */
  lemma HeadRowOutput<P, S>(screen: Screen, syn: Syntax<P, S>, initial: P, hunkOf: nat -> Option<ChangeId>,
                            notes: map<ChangeId, Annotation>, wrap: (string, nat) -> seq<string>,
                            c: ChangeId, a: Annotation)
    requires !screen.colored && notes == map[c := a] && Origin(a) == "HEAD"
    requires Rows(BlameContext(screen, syn, hunkOf, notes, wrap, 1), ["test('arg1');"], None) ==
               Ok([Row("HEAD", "1", "test('arg1');")])
    ensures BlameText(screen, syn, initial, hunkOf, notes, wrap, ["test('arg1');"]) ==
              Ok("HEAD 1 \U{2502} test('arg1');\n")
  {
    SingleOriginWidth(c, a);
    OneRowText(screen, syn, initial, hunkOf, notes, wrap, ["test('arg1');"], Row("HEAD", "1", "test('arg1');"),
               MakeLayout(4, 1, false, screen.gutterStyle));
    SingleLineRow(screen.gutterStyle);
  }

  /** A loop that writes one row makes `blame` write that row's text. */
  lemma OneRowText<P, S>(screen: Screen, syn: Syntax<P, S>, initial: P, hunkOf: nat -> Option<ChangeId>,
                         notes: map<ChangeId, Annotation>, wrap: (string, nat) -> seq<string>,
                         lines: seq<string>, row: Row, l: Layout)
    requires Rows(BlameContext(screen, syn, hunkOf, notes, wrap, |lines|), lines, StartState(screen.colored, initial)) ==
               Ok([row])
    requires BlameLayout(screen, notes, |lines|) == l
    ensures BlameText(screen, syn, initial, hunkOf, notes, wrap, lines) == Ok(RowText(l, row))
  {
    BlameTextOfRows(screen, syn, initial, hunkOf, notes, wrap, lines, [row]);
    assert [row][1..] == [];
    assert Joined(l, [row]) == RowText(l, row) + "";
    assert RowText(l, row) + "" == RowText(l, row);
  }

  /** When the loop writes `rows`, `blame` writes their texts at its layout. */
  lemma BlameTextOfRows<P, S>(screen: Screen, syn: Syntax<P, S>, initial: P, hunkOf: nat -> Option<ChangeId>,
                              notes: map<ChangeId, Annotation>, wrap: (string, nat) -> seq<string>,
                              lines: seq<string>, rows: seq<Row>)
    requires Rows(BlameContext(screen, syn, hunkOf, notes, wrap, |lines|), lines, StartState(screen.colored, initial)) ==
               Ok(rows)
    ensures BlameText(screen, syn, initial, hunkOf, notes, wrap, lines) == Ok(Joined(BlameLayout(screen, notes, |lines|), rows))
  {
  }

  /** The walk from `HEAD` that yields the only blamed commit first labels it "HEAD". */
  lemma SingleCommitNotes(c: ChangeId, short: string, shortOf: ChangeId -> string)
    ensures Relabel(map[c := Annotation(short, None)], [c], StrippedRevset("HEAD").head,
                    StrippedRevset("HEAD").offset, shortOf, StepsTaken({c}, [c])) ==
              map[c := Annotation(short, Some("HEAD"))]
  {
    NoTildeIsItsOwnHead("HEAD");
    assert StepsTaken({c}, [c]) == 1;
  }

  /** A table whose one origin is "HEAD" has an origin column four wide. */
  lemma SingleOriginWidth(c: ChangeId, a: Annotation)
    requires Origin(a) == "HEAD"
    ensures MaxOriginWidth(map[c := a]) == 4
  {
    HeadWidth();
    var notes := map[c := a];
    assert forall id :: id in notes ==> id == c;
  }

  // ----- decoding the blob -----

  /** What content_inspector reports about a blob. */
  datatype ContentType = Binary | Utf8 | Utf8Bom | Utf16Le | Utf16Be | Utf32Le | Utf32Be

  type Byte = b: int | 0 <= b < 256

  /** The decoding collaborators: content_inspector, `String::from_utf8_lossy`, and the
      `encoding` crate's UTF-16 decoders, which may fail. */
  datatype Decoders = Decoders(inspect: seq<Byte> -> ContentType, lossyUtf8: seq<Byte> -> string,
                               utf16Le: seq<Byte> -> Option<string>, utf16Be: seq<Byte> -> Option<string>)

  datatype ConvertError =
    | NotText(path: string)     // "Could not ready binary file"
    | BadUtf16(path: string)    // "Could not decode UTF-16 in"

  /** `convert_file`: the blob as text, by its content type. */
  function ConvertFile(dec: Decoders, buffer: seq<Byte>, path: string): (r: Result<string, ConvertError>)
    ensures r == Err(NotText(path)) <==> dec.inspect(buffer) in {Binary, Utf32Le, Utf32Be}
    ensures r == Err(BadUtf16(path)) <==>
              (dec.inspect(buffer) == Utf16Le && dec.utf16Le(buffer).None?) ||
              (dec.inspect(buffer) == Utf16Be && dec.utf16Be(buffer).None?)
    ensures dec.inspect(buffer) in {Utf8, Utf8Bom} ==> r == Ok(dec.lossyUtf8(buffer))
    ensures r.Ok? && dec.inspect(buffer) == Utf16Le ==> r == Ok(dec.utf16Le(buffer).value)
    ensures r.Ok? && dec.inspect(buffer) == Utf16Be ==> r == Ok(dec.utf16Be(buffer).value)
  {
    match dec.inspect(buffer)
    case Binary => Err(NotText(path))
    case Utf32Le => Err(NotText(path))
    case Utf32Be => Err(NotText(path))
    case Utf8 => Ok(dec.lossyUtf8(buffer))
    case Utf8Bom => Ok(dec.lossyUtf8(buffer))
    case Utf16Le =>
      (match dec.utf16Le(buffer)
       case None => Err(BadUtf16(path))
       case Some(s) => Ok(s))
    case Utf16Be =>
      match dec.utf16Be(buffer)
      case None => Err(BadUtf16(path))
      case Some(s) => Ok(s)
  }
}
