/**
 Inline rich text, between ProseMirror nodes and Geul inline content.

 The reader merges runs of equal style, and turns a hard break into a newline of the run before it; the writer
 splits runs at newlines again. `ReadingKeepsMeaning` proves that the character sequence, with its styles and
 links, survives reading; `ReadsBackExactlyWhenCanonical` which content survives writing and reading; and
 `ReadingSettles` that content which was read from well-formed nodes always does.
 */
module InlineContent {
  import opened Wrappers

  // ---------------------------------------------------------------------------------------------
  // Both forms
  // ---------------------------------------------------------------------------------------------

  const BOOLEAN_STYLE_MARKS := {"bold", "italic", "underline", "strike", "code"}
  const STRING_STYLE_MARKS := {"textColor", "backgroundColor"}

  /** The attributes of a mark: none, or a record with or without the one it may hold. */
  datatype Attributes = NoRecord | Record(value: Option<string>)

  /** A mark with its attribute: the target of a link, the value of a colour. */
  datatype Mark = Mark(name: string, attributes: Attributes)

  datatype Node =
    | Text(text: string, marks: seq<Mark>)
    | HardBreak(bare: bool)
    | Math(latex: Option<string>, children: seq<Node>, marked: bool)
    | OtherNode(name: string)

  /** A colour mark with an empty record sets its style to no value at all. */
  datatype StyleValue = On | Value(value: string) | Absent

  datatype Style = Style(name: string, value: StyleValue)

  /** A record of styles, in insertion order. */
  type Styles = seq<Style>

  datatype StyledText = StyledText(text: string, styles: Styles)

  datatype Content =
    | Run(run: StyledText)
    | Link(href: string, content: seq<StyledText>)
    | Formula(latex: string)
    | OtherContent

  datatype Error =
    | InvalidMark(name: string)
    | InvalidHardBreak
    | InvalidMath
    | ConflictingMath
    | UnsupportedNode(name: string)
    | UnsupportedStyle(name: string)
    | UnsupportedContent

  /** What a text looks like: its styles and the link it is in. */
  datatype Face = Face(styles: Styles, href: Option<string>)

  // ---------------------------------------------------------------------------------------------
  // Reading
  // ---------------------------------------------------------------------------------------------

  predicate WellFormedMark(mark: Mark) {
    if mark.name == "link" || mark.name in STRING_STYLE_MARKS then mark.attributes.Record?
    else mark.name in BOOLEAN_STYLE_MARKS && (mark.attributes.NoRecord? || mark.attributes.value.None?)
  }

  /** Setting a key that is there keeps its place. */
  function Put(styles: Styles, style: Style): Styles {
    if styles == [] then [style]
    else if styles[0].name == style.name then [style] + styles[1..]
    else [styles[0]] + Put(styles[1..], style)
  }

  function StyleOf(mark: Mark): Style
    requires WellFormedMark(mark)
  {
    Style(mark.name, if mark.name !in STRING_STYLE_MARKS || mark.name == "link" then On
                     else if mark.attributes.value.Some? then Value(mark.attributes.value.value) else Absent)
  }

  /** A link mark without a target takes the link away. */
  function WithMark(face: Face, mark: Mark): Face
    requires WellFormedMark(mark)
  {
    if mark.name == "link" then face.(href := mark.attributes.value)
    else face.(styles := Put(face.styles, StyleOf(mark)))
  }

  /** The styles as JSON text shows them: those without a value are left out. */
  function Shown(styles: Styles): Styles {
    if styles == [] then []
    else Shown(styles[..|styles| - 1]) + if styles[|styles| - 1].value.Absent? then [] else [styles[|styles| - 1]]
  }

  /** Exactly the styles with a value show, each part of a list by itself, so in their order. */
  lemma {:induction false} ShownExactly(styles: Styles, more: Styles)
    ensures forall style :: style in Shown(styles) <==> style in styles && !style.value.Absent?
    ensures Shown(styles + more) == Shown(styles) + Shown(more)
    decreases |styles| + |more|
  {
    if more != [] {
      var last := |more| - 1;
      ShownExactly(styles, more[..last]);
      assert (styles + more)[..|styles| + last] == styles + more[..last];
    } else {
      assert styles + more == styles;
      if styles != [] {
        ShownExactly(styles[..|styles| - 1], []);
        assert styles == styles[..|styles| - 1] + [styles[|styles| - 1]];
      }
    }
  }

  function ShownFace(face: Face): Face {
    face.(styles := Shown(face.styles))
  }

  /** Styles are compared by their JSON text. */
  predicate EqualStyles(a: Styles, b: Styles) {
    Shown(a) == Shown(b)
  }

  /** The styles and link of the first `n` marks; the last link wins. */
  function FaceOf(marks: seq<Mark>, n: nat): Result<Face, Error>
    requires n <= |marks|
  {
    if n == 0 then Ok(Face([], None))
    else
      match FaceOf(marks, n - 1)
      case Err(e) => Err(e)
      case Ok(face) =>
        if WellFormedMark(marks[n - 1]) then Ok(WithMark(face, marks[n - 1])) else Err(InvalidMark(marks[n - 1].name))
  }

  /** The source of the first `n` children, which must be unmarked text. */
  function MathText(children: seq<Node>, n: nat): Result<string, Error>
    requires n <= |children|
  {
    if n == 0 then Ok("")
    else
      match MathText(children, n - 1)
      case Err(e) => Err(e)
      case Ok(source) =>
        if children[n - 1].Text? && children[n - 1].marks == [] then Ok(source + children[n - 1].text) else Err(InvalidMath)
  }

  function MathSource(node: Node): Result<string, Error>
    requires node.Math?
  {
    var legacy := if node.latex.Some? then node.latex.value else "";
    if node.marked then Err(InvalidMath)
    else if node.children == [] then Ok(legacy)
    else
      match MathText(node.children, |node.children|)
      case Err(e) => Err(e)
      case Ok(source) => if legacy != "" && legacy != source then Err(ConflictingMath) else Ok(source)
  }

  function ExtendLast(content: seq<StyledText>, text: string): seq<StyledText>
    requires content != []
  {
    var last := content[|content| - 1];
    content[|content| - 1 := last.(text := last.text + text)]
  }

  /** Extends the last run when styles and link are the same. */
  function AppendText(output: seq<Content>, text: string, face: Face): seq<Content> {
    var n := |output|;
    match face.href
    case None =>
      if n > 0 && output[n - 1].Run? && EqualStyles(output[n - 1].run.styles, face.styles) then ExtendRun(output, text)
      else output + [Run(StyledText(text, face.styles))]
    case Some(href) =>
      if n == 0 || !output[n - 1].Link? || output[n - 1].href != href
      then output + [Link(href, [StyledText(text, face.styles)])]
      else
        var content := output[n - 1].content;
        if content == [] || !EqualStyles(content[|content| - 1].styles, face.styles)
        then output[n - 1 := Link(href, content + [StyledText(text, face.styles)])]
        else ExtendRun(output, text)
  }

  /** What the last run looks like, when the output ends in one. */
  function LastFace(output: seq<Content>): Option<Face> {
    if output == [] then None
    else
      match output[|output| - 1]
      case Run(run) => Some(Face(run.styles, None))
      case Link(href, content) => if content == [] then None else Some(Face(content[|content| - 1].styles, Some(href)))
      case _ => None
  }

  function ExtendRun(output: seq<Content>, text: string): seq<Content>
    requires LastFace(output).Some?
  {
    match output[|output| - 1]
    case Run(run) => output[|output| - 1 := Run(run.(text := run.text + text))]
    case Link(href, content) => output[|output| - 1 := Link(href, ExtendLast(content, text))]
  }

  /** A newline at the end of the last run, wherever it is. */
  function AppendHardBreak(output: seq<Content>): seq<Content> {
    if LastFace(output).Some? then ExtendRun(output, "\n") else output + [Run(StyledText("\n", []))]
  }

  function Append(output: seq<Content>, node: Node, allowsMath: bool): Result<seq<Content>, Error> {
    match node
    case HardBreak(bare) => if bare then Ok(AppendHardBreak(output)) else Err(InvalidHardBreak)
    case Text(text, marks) =>
      (match FaceOf(marks, |marks|)
       case Err(e) => Err(e)
       case Ok(face) => Ok(AppendText(output, text, face)))
    case Math(_, _, _) =>
      if !allowsMath then Err(UnsupportedNode("mathInline"))
      else
        (match MathSource(node)
         case Err(e) => Err(e)
         case Ok(latex) => Ok(output + [Formula(latex)]))
    case OtherNode(name) => Err(UnsupportedNode(name))
  }

  /** What `output` becomes when the first `n` nodes are read. */
  function ReadInto(output: seq<Content>, nodes: seq<Node>, n: nat, allowsMath: bool): Result<seq<Content>, Error>
    requires n <= |nodes|
  {
    if n == 0 then Ok(output)
    else
      match ReadInto(output, nodes, n - 1, allowsMath)
      case Err(e) => Err(e)
      case Ok(before) => Append(before, nodes[n - 1], allowsMath)
  }

  function Read(nodes: seq<Node>, allowsMath: bool): Result<seq<Content>, Error> {
    ReadInto([], nodes, |nodes|, allowsMath)
  }

  lemma {:induction false} FailedStaysFailed(output: seq<Content>, nodes: seq<Node>, n: nat, m: nat, allowsMath: bool)
    requires n <= m <= |nodes| && ReadInto(output, nodes, n, allowsMath).Err?
    ensures ReadInto(output, nodes, m, allowsMath) == ReadInto(output, nodes, n, allowsMath)
  {
    if n < m {
      FailedStaysFailed(output, nodes, n, m - 1, allowsMath);
    }
  }

  lemma FailedFaceStaysFailed(marks: seq<Mark>, n: nat, m: nat)
    requires n <= m <= |marks| && FaceOf(marks, n).Err?
    ensures FaceOf(marks, m) == FaceOf(marks, n)
  {
    if n < m {
      FailedFaceStaysFailed(marks, n, m - 1);
    }
  }

  method StyleValues(marks: seq<Mark>) returns (r: Result<Face, Error>)
    ensures r == FaceOf(marks, |marks|)
  {
    var face := Face([], None);
    for i := 0 to |marks|
      invariant FaceOf(marks, i) == Ok(face)
    {
      if !WellFormedMark(marks[i]) {
        FailedFaceStaysFailed(marks, i + 1, |marks|);
        return Err(InvalidMark(marks[i].name));
      }
      face := WithMark(face, marks[i]);
    }
    return Ok(face);
  }

  method InlineContentFromNode(nodes: seq<Node>, allowsMath: bool) returns (r: Result<seq<Content>, Error>)
    ensures r == Read(nodes, allowsMath)
  {
    hide Append;
    var output := [];
    for i := 0 to |nodes|
      invariant ReadInto([], nodes, i, allowsMath) == Ok(output)
    {
      var appended := AppendNode(output, nodes[i], allowsMath);
      if appended.Err? {
        FailedStaysFailed([], nodes, i + 1, |nodes|, allowsMath);
        return appended;
      }
      output := appended.value;
    }
    return Ok(output);
  }

  method AppendNode(output: seq<Content>, node: Node, allowsMath: bool) returns (r: Result<seq<Content>, Error>)
    ensures r == Append(output, node, allowsMath)
  {
    match node {
      case HardBreak(bare) =>
        return if bare then Ok(AppendHardBreak(output)) else Err(InvalidHardBreak);
      case Text(text, marks) =>
        var face := StyleValues(marks);
        return if face.Err? then Err(face.error) else Ok(AppendText(output, text, face.value));
      case Math(_, _, _) =>
        if !allowsMath {
          return Err(UnsupportedNode("mathInline"));
        }
        var latex := MathSource(node);
        return if latex.Err? then Err(latex.error) else Ok(output + [Formula(latex.value)]);
      case OtherNode(name) =>
        return Err(UnsupportedNode(name));
    }
  }

  // ---------------------------------------------------------------------------------------------
  // Writing
  // ---------------------------------------------------------------------------------------------

  predicate Supported(style: Style) {
    || (style.name in BOOLEAN_STYLE_MARKS && style.value == On)
    || (style.name in STRING_STYLE_MARKS && style.value.Value?)
  }

  function MarkOf(style: Style): Mark {
    Mark(style.name, match style.value case On => NoRecord case Value(value) => Record(Some(value)) case Absent => Record(None))
  }

  /** The marks of the first `n` styles. */
  function MarksOf(styles: Styles, n: nat): Result<seq<Mark>, Error>
    requires n <= |styles|
  {
    if n == 0 then Ok([])
    else
      match MarksOf(styles, n - 1)
      case Err(e) => Err(e)
      case Ok(marks) =>
        if Supported(styles[n - 1]) then Ok(marks + [MarkOf(styles[n - 1])]) else Err(UnsupportedStyle(styles[n - 1].name))
  }

  function LinkMarks(href: Option<string>): seq<Mark> {
    if href.Some? then [Mark("link", Record(href))] else []
  }

  /** The text split at newlines. */
  function Lines(text: string): (lines: seq<string>)
    ensures lines != []
  {
    if text == "" then [""]
    else
      var before := Lines(text[..|text| - 1]);
      var c := text[|text| - 1];
      if c == '\n' then before + [""] else before[|before| - 1 := before[|before| - 1] + [c]]
  }

  /** The nodes of the first `n` lines: a hard break before each but the first, and no empty text. */
  function LineNodes(lines: seq<string>, marks: seq<Mark>, n: nat): seq<Node>
    requires n <= |lines|
  {
    if n == 0 then []
    else
      LineNodes(lines, marks, n - 1)
      + (if n > 1 then [HardBreak(true)] else [])
      + (if lines[n - 1] != "" then [Text(lines[n - 1], marks)] else [])
  }

  function WriteText(item: StyledText, href: Option<string>): Result<seq<Node>, Error> {
    match MarksOf(item.styles, |item.styles|)
    case Err(e) => Err(e)
    case Ok(marks) => Ok(LineNodes(Lines(item.text), marks + LinkMarks(href), |Lines(item.text)|))
  }

  /** The nodes of the first `n` texts of a link. */
  function WriteLink(href: string, content: seq<StyledText>, n: nat): Result<seq<Node>, Error>
    requires n <= |content|
  {
    if n == 0 then Ok([])
    else
      match WriteLink(href, content, n - 1)
      case Err(e) => Err(e)
      case Ok(before) =>
        match WriteText(content[n - 1], Some(href))
        case Err(e) => Err(e)
        case Ok(nodes) => Ok(before + nodes)
  }

  function WriteItem(item: Content, allowsMath: bool): Result<seq<Node>, Error> {
    match item
    case Run(run) => WriteText(run, None)
    case Link(href, content) => WriteLink(href, content, |content|)
    case Formula(latex) =>
      if !allowsMath then Err(UnsupportedContent)
      else Ok([Math(Some(""), if latex == "" then [] else [Text(latex, [])], false)])
    case OtherContent => Err(UnsupportedContent)
  }

  /** The nodes of the first `n` items. */
  function Write(content: seq<Content>, n: nat, allowsMath: bool): Result<seq<Node>, Error>
    requires n <= |content|
  {
    if n == 0 then Ok([])
    else
      match Write(content, n - 1, allowsMath)
      case Err(e) => Err(e)
      case Ok(before) =>
        match WriteItem(content[n - 1], allowsMath)
        case Err(e) => Err(e)
        case Ok(nodes) => Ok(before + nodes)
  }

  lemma {:induction false} FailedMarksStayFailed(styles: Styles, n: nat, m: nat)
    requires n <= m <= |styles| && MarksOf(styles, n).Err?
    ensures MarksOf(styles, m) == MarksOf(styles, n)
  {
    if n < m {
      FailedMarksStayFailed(styles, n, m - 1);
    }
  }

  method StyleMarks(styles: Styles, href: Option<string>) returns (r: Result<seq<Mark>, Error>)
    ensures r == (match MarksOf(styles, |styles|) case Err(e) => Err(e) case Ok(marks) => Ok(marks + LinkMarks(href)))
  {
    var marks := [];
    for i := 0 to |styles|
      invariant MarksOf(styles, i) == Ok(marks)
    {
      if styles[i].name in BOOLEAN_STYLE_MARKS && styles[i].value == On {
        marks := marks + [Mark(styles[i].name, NoRecord)];
      } else if styles[i].name in STRING_STYLE_MARKS && styles[i].value.Value? {
        marks := marks + [Mark(styles[i].name, Record(Some(styles[i].value.value)))];
      } else {
        FailedMarksStayFailed(styles, i + 1, |styles|);
        return Err(UnsupportedStyle(styles[i].name));
      }
    }
    if href.Some? {
      marks := marks + [Mark("link", Record(href))];
    } else {
      assert marks + LinkMarks(href) == marks;
    }
    return Ok(marks);
  }

  /** The lines hold no newline, and joined by newlines they are the text. */
  lemma {:induction false} LinesAreSplit(text: string)
    ensures forall k | 0 <= k < |Lines(text)| :: '\n' !in Lines(text)[k]
    ensures Joined(Lines(text), |Lines(text)|) == text
  {
    if text != "" {
      var rest := text[..|text| - 1];
      LinesAreSplit(rest);
      var before, n, c := Lines(rest), |Lines(rest)|, text[|text| - 1];
      JoinedPrefix(before, Lines(text), n - 1);
      if c == '\n' {
        JoinedPrefix(before, Lines(text), n);
      }
      assert text == rest + [c];
    }
  }

  function Joined(lines: seq<string>, n: nat): string
    requires n <= |lines|
  {
    if n == 0 then "" else Joined(lines, n - 1) + (if n > 1 then "\n" else "") + lines[n - 1]
  }

  lemma {:induction false} JoinedPrefix(a: seq<string>, b: seq<string>, n: nat)
    requires n <= |a| && n <= |b| && a[..n] == b[..n]
    ensures Joined(a, n) == Joined(b, n)
  {
    if n > 0 {
      assert a[..n - 1] == a[..n][..n - 1] && b[..n - 1] == b[..n][..n - 1];
      assert a[n - 1] == a[..n][n - 1] && b[n - 1] == b[..n][n - 1];
      JoinedPrefix(a, b, n - 1);
    }
  }

  // ---------------------------------------------------------------------------------------------
  // Meaning
  // ---------------------------------------------------------------------------------------------

  datatype Glyph = Char(c: char, face: Face) | FormulaGlyph(latex: string)

  const PLAIN := Face([], None)

  /** Characters that look like `face`; a style without a value does not show. */
  function Typeset(text: string, face: Face): (glyphs: seq<Glyph>) {
    seq(|text|, i requires 0 <= i < |text| => Char(text[i], ShownFace(face)))
  }

  /** The characters of the first `n` texts of a link. */
  function LinkGlyphs(href: string, content: seq<StyledText>, n: nat): seq<Glyph>
    requires n <= |content|
  {
    if n == 0 then []
    else LinkGlyphs(href, content, n - 1) + Typeset(content[n - 1].text, Face(content[n - 1].styles, Some(href)))
  }

  function ItemGlyphs(item: Content): seq<Glyph> {
    match item
    case Run(run) => Typeset(run.text, Face(run.styles, None))
    case Link(href, content) => LinkGlyphs(href, content, |content|)
    case Formula(latex) => [FormulaGlyph(latex)]
    case OtherContent => []
  }

  function ContentGlyphs(content: seq<Content>, n: nat): seq<Glyph>
    requires n <= |content|
  {
    if n == 0 then [] else ContentGlyphs(content, n - 1) + ItemGlyphs(content[n - 1])
  }

  /** The texts of a formula's children, one after another. */
  function ChildText(children: seq<Node>): string {
    if children == [] then ""
    else (if children[0].Text? then children[0].text else "") + ChildText(children[1..])
  }

  /** The formula a node shows: the text it holds, or its attribute when it holds none. */
  function ShownFormula(node: Node): string
    requires node.Math?
  {
    if node.children != [] then ChildText(node.children) else if node.latex.Some? then node.latex.value else ""
  }

  /** A formula is unmarked and holds unmarked texts only; an attribute beside them is empty or says the same. */
  predicate ValidFormula(node: Node)
    requires node.Math?
  {
    && !node.marked
    && (forall k | 0 <= k < |node.children| :: node.children[k].Text? && node.children[k].marks == [])
    && (node.children != [] && node.latex.Some? && node.latex.value != "" ==> node.latex.value == ChildText(node.children))
  }

  lemma {:induction false} ChildTextSnoc(children: seq<Node>)
    requires children != []
    ensures var last := children[|children| - 1];
            ChildText(children) == ChildText(children[..|children| - 1]) + if last.Text? then last.text else ""
  {
    if |children| > 1 {
      ChildTextSnoc(children[1..]);
      assert children[1..][..|children| - 2] == children[..|children| - 1][1..];
    } else {
      assert children[..0] == [] && children[1..] == [];
    }
  }

  lemma {:induction false} MathTextIsShown(children: seq<Node>, n: nat)
    requires n <= |children|
    ensures MathText(children, n).Ok? <==> forall k | 0 <= k < n :: children[k].Text? && children[k].marks == []
    ensures MathText(children, n).Ok? ==> MathText(children, n).value == ChildText(children[..n])
    ensures MathText(children, n).Err? ==> MathText(children, n).error == InvalidMath
  {
    if n > 0 {
      MathTextIsShown(children, n - 1);
      ChildTextSnoc(children[..n]);
      assert children[..n][..n - 1] == children[..n - 1];
    }
  }

  /** A formula is read exactly when it is valid, as what it shows; a conflict is reported exactly for valid texts. */
  lemma {:induction false} FormulaIsShown(node: Node)
    requires node.Math?
    ensures MathSource(node).Ok? <==> ValidFormula(node)
    ensures ValidFormula(node) ==> MathSource(node).value == ShownFormula(node)
    ensures MathSource(node) == Err(ConflictingMath) <==>
              !ValidFormula(node) && ValidFormula(node.(latex := None))
  {
    MathTextIsShown(node.children, |node.children|);
    assert node.children[..|node.children|] == node.children;
    hide MathText, ChildText;
  }

  predicate Readable(node: Node, allowsMath: bool) {
    match node
    case HardBreak(bare) => bare
    case Text(_, marks) => FaceOf(marks, |marks|).Ok?
    case Math(_, _, _) => allowsMath && ValidFormula(node)
    case OtherNode(_) => false
  }

  predicate AllReadable(nodes: seq<Node>, allowsMath: bool) {
    forall k | 0 <= k < |nodes| :: Readable(nodes[k], allowsMath)
  }

  /** A hard break looks like the text before it, or plain when there is none or a formula. */
  function BreakFace(nodes: seq<Node>, n: nat, allowsMath: bool): Face
    requires n <= |nodes| && AllReadable(nodes, allowsMath)
  {
    if n == 0 || nodes[n - 1].Math? then PLAIN
    else if nodes[n - 1].HardBreak? then BreakFace(nodes, n - 1, allowsMath)
    else ShownFace(FaceOf(nodes[n - 1].marks, |nodes[n - 1].marks|).value)
  }

  function NodeGlyphs(nodes: seq<Node>, n: nat, allowsMath: bool): seq<Glyph>
    requires n <= |nodes| && AllReadable(nodes, allowsMath)
  {
    if n == 0 then []
    else
      NodeGlyphs(nodes, n - 1, allowsMath) +
      match nodes[n - 1]
      case HardBreak(_) => [Char('\n', BreakFace(nodes, n - 1, allowsMath))]
      case Text(text, marks) => Typeset(text, FaceOf(marks, |marks|).value)
      case Math(_, _, _) => [FormulaGlyph(ShownFormula(nodes[n - 1]))]
  }

  lemma {:induction false} GlyphsOfPrefix(a: seq<Content>, b: seq<Content>, n: nat)
    requires n <= |a| && n <= |b| && forall k | 0 <= k < n :: a[k] == b[k]
    ensures ContentGlyphs(a, n) == ContentGlyphs(b, n)
  {
    if n > 0 {
      GlyphsOfPrefix(a, b, n - 1);
    }
  }

  lemma {:induction false} LinkGlyphsOfPrefix(href: string, a: seq<StyledText>, b: seq<StyledText>, n: nat)
    requires n <= |a| && n <= |b| && forall k | 0 <= k < n :: a[k] == b[k]
    ensures LinkGlyphs(href, a, n) == LinkGlyphs(href, b, n)
  {
    if n > 0 {
      LinkGlyphsOfPrefix(href, a, b, n - 1);
    }
  }

  lemma TypesetConcat(a: string, b: string, face: Face)
    ensures Typeset(a + b, face) == Typeset(a, face) + Typeset(b, face)
  {
  }

  lemma ConcatAssociates<T>(a: seq<T>, b: seq<T>, c: seq<T>)
    ensures (a + b) + c == a + (b + c)
  {
  }

  lemma {:induction false} ReplaceLastKeeps(output: seq<Content>, item: Content, more: seq<Glyph>)
    requires output != [] && ItemGlyphs(item) == ItemGlyphs(output[|output| - 1]) + more
    ensures ContentGlyphs(output[|output| - 1 := item], |output|) == ContentGlyphs(output, |output|) + more
  {
    hide ItemGlyphs;
    var n, after := |output|, output[|output| - 1 := item];
    GlyphsOfPrefix(output, after, n - 1);
    assert ContentGlyphs(after, n) == ContentGlyphs(after, n - 1) + ItemGlyphs(item);
    assert ContentGlyphs(output, n) == ContentGlyphs(output, n - 1) + ItemGlyphs(output[n - 1]);
    hide *;
    ConcatAssociates(ContentGlyphs(output, n - 1), ItemGlyphs(output[n - 1]), more);
  }

  lemma {:induction false} PushKeeps(output: seq<Content>, item: Content)
    ensures ContentGlyphs(output + [item], |output| + 1) == ContentGlyphs(output, |output|) + ItemGlyphs(item)
  {
    hide ItemGlyphs;
    GlyphsOfPrefix(output, output + [item], |output|);
  }

  lemma {:induction false} ExtendLastKeeps(href: string, content: seq<StyledText>, text: string)
    requires content != []
    ensures LinkGlyphs(href, ExtendLast(content, text), |content|)
            == LinkGlyphs(href, content, |content|) + Typeset(text, Face(content[|content| - 1].styles, Some(href)))
  {
    var last := content[|content| - 1];
    var face := Face(last.styles, Some(href));
    LinkGlyphsOfPrefix(href, content, ExtendLast(content, text), |content| - 1);
    TypesetConcat(last.text, text, face);
    hide Typeset;
    ConcatAssociates(LinkGlyphs(href, content, |content| - 1), Typeset(last.text, face), Typeset(text, face));
  }

  lemma {:induction false} LinkPushKeeps(href: string, content: seq<StyledText>, item: StyledText)
    ensures LinkGlyphs(href, content + [item], |content| + 1)
            == LinkGlyphs(href, content, |content|) + Typeset(item.text, Face(item.styles, Some(href)))
  {
    hide Typeset;
    LinkGlyphsOfPrefix(href, content, content + [item], |content|);
  }

  lemma {:induction false} ExtendRunKeeps(output: seq<Content>, text: string)
    requires LastFace(output).Some?
    ensures var after := ExtendRun(output, text);
            && |after| == |output| && LastFace(after) == LastFace(output)
            && ContentGlyphs(after, |after|) == ContentGlyphs(output, |output|) + Typeset(text, LastFace(output).value)
  {
    var last := output[|output| - 1];
    var more := Typeset(text, LastFace(output).value);
    match last {
      case Run(run) =>
        TypesetConcat(run.text, text, LastFace(output).value);
        hide Typeset, ContentGlyphs;
        ReplaceLastKeeps(output, Run(run.(text := run.text + text)), more);
      case Link(href, content) =>
        ExtendLastKeeps(href, content, text);
        hide Typeset, ContentGlyphs, LinkGlyphs;
        ReplaceLastKeeps(output, Link(href, ExtendLast(content, text)), more);
    }
  }

  lemma {:induction false} NewLinkKeeps(output: seq<Content>, href: string, item: StyledText)
    ensures ContentGlyphs(output + [Link(href, [item])], |output| + 1)
            == ContentGlyphs(output, |output|) + Typeset(item.text, Face(item.styles, Some(href)))
  {
    OneTextLink(href, item);
    hide *;
    PushKeeps(output, Link(href, [item]));
  }

  lemma OneTextLink(href: string, item: StyledText)
    ensures ItemGlyphs(Link(href, [item])) == Typeset(item.text, Face(item.styles, Some(href)))
  {
    hide Typeset;
    var glyphs := Typeset(item.text, Face(item.styles, Some(href)));
    assert LinkGlyphs(href, [item], 1) == LinkGlyphs(href, [item], 0) + glyphs;
    assert LinkGlyphs(href, [item], 0) == [] && [] + glyphs == glyphs;
  }

  lemma {:induction false} ExtendedLinkKeeps(output: seq<Content>, href: string, content: seq<StyledText>, item: StyledText)
    requires output != [] && output[|output| - 1] == Link(href, content)
    ensures ContentGlyphs(output[|output| - 1 := Link(href, content + [item])], |output|)
            == ContentGlyphs(output, |output|) + Typeset(item.text, Face(item.styles, Some(href)))
  {
    LinkPushKeeps(href, content, item);
    hide Typeset, ContentGlyphs, LinkGlyphs;
    ReplaceLastKeeps(output, Link(href, content + [item]), Typeset(item.text, Face(item.styles, Some(href))));
  }

  /** The output ends in a run that looks like `face`. */
  predicate Matches(output: seq<Content>, face: Face) {
    LastFace(output).Some? && ShownFace(LastFace(output).value) == ShownFace(face)
  }

  lemma TypesetShown(text: string, a: Face, b: Face)
    requires ShownFace(a) == ShownFace(b)
    ensures Typeset(text, a) == Typeset(text, b)
  {
  }

  /** Text of another face starts a run: on its own, in a new link, or in the link the output ends in. */
  lemma NewRun(output: seq<Content>, text: string, face: Face)
    requires !Matches(output, face)
    ensures var item := StyledText(text, face.styles);
            var after := AppendText(output, text, face);
            || (face.href.None? && after == output + [Run(item)])
            || (face.href.Some? && after == output + [Link(face.href.value, [item])])
            || (face.href.Some? && output != [] && output[|output| - 1].Link? && output[|output| - 1].href == face.href.value
                && after == output[|output| - 1 := Link(face.href.value, output[|output| - 1].content + [item])])
    ensures LastFace(AppendText(output, text, face)) == Some(face)
  {
  }

  lemma SameRun(output: seq<Content>, text: string, face: Face)
    requires Matches(output, face)
    ensures AppendText(output, text, face) == ExtendRun(output, text)
  {
    hide ExtendRun;
  }

  lemma RunGlyphs(item: StyledText)
    ensures ItemGlyphs(Run(item)) == Typeset(item.text, Face(item.styles, None))
  {
  }

  lemma {:induction false} OtherFaceKeeps(output: seq<Content>, text: string, face: Face)
    requires !Matches(output, face)
    ensures var after := AppendText(output, text, face);
            && LastFace(after) == Some(face)
            && ContentGlyphs(after, |after|) == ContentGlyphs(output, |output|) + Typeset(text, face)
  {
    var item := StyledText(text, face.styles);
    NewRun(output, text, face);
    hide *;
    var after := AppendText(output, text, face);
    if face.href.None? {
      PushKeeps(output, Run(item));
      RunGlyphs(item);
    } else if after == output + [Link(face.href.value, [item])] {
      NewLinkKeeps(output, face.href.value, item);
    } else {
      ExtendedLinkKeeps(output, face.href.value, output[|output| - 1].content, item);
    }
  }

  lemma {:induction false} AppendTextKeeps(output: seq<Content>, text: string, face: Face)
    ensures var after := AppendText(output, text, face);
            && Matches(after, face)
            && ContentGlyphs(after, |after|) == ContentGlyphs(output, |output|) + Typeset(text, face)
  {
    hide AppendText, ExtendRun, ContentGlyphs, Typeset, Shown, LastFace;
    if Matches(output, face) {
      SameRun(output, text, face);
      ExtendRunKeeps(output, text);
      TypesetShown(text, LastFace(output).value, face);
    } else {
      OtherFaceKeeps(output, text, face);
    }
  }

  function FaceOrPlain(face: Option<Face>): Face {
    if face.Some? then face.value else PLAIN
  }

  lemma {:induction false} HardBreakKeeps(output: seq<Content>)
    ensures var after := AppendHardBreak(output);
            && LastFace(after) == Some(FaceOrPlain(LastFace(output)))
            && ContentGlyphs(after, |after|)
               == ContentGlyphs(output, |output|) + [Char('\n', ShownFace(FaceOrPlain(LastFace(output))))]
  {
    assert forall face :: Typeset("\n", face) == [Char('\n', ShownFace(face))];
    if LastFace(output).Some? {
      ExtendRunKeeps(output, "\n");
    } else {
      PushKeeps(output, Run(StyledText("\n", [])));
    }
  }

  /** How `n` nodes and the output they were read into agree. */
  ghost predicate SameMeaning(nodes: seq<Node>, n: nat, output: seq<Content>, allowsMath: bool)
    requires n <= |nodes| && AllReadable(nodes, allowsMath)
  {
    && ContentGlyphs(output, |output|) == NodeGlyphs(nodes, n, allowsMath)
    && ShownFace(FaceOrPlain(LastFace(output))) == BreakFace(nodes, n, allowsMath)
  }

  lemma AppendKeepsMeaning(nodes: seq<Node>, n: nat, output: seq<Content>, allowsMath: bool)
    requires n < |nodes| && AllReadable(nodes, allowsMath) && SameMeaning(nodes, n, output, allowsMath)
    ensures Append(output, nodes[n], allowsMath).Ok?
    ensures SameMeaning(nodes, n + 1, Append(output, nodes[n], allowsMath).value, allowsMath)
  {
    hide ContentGlyphs, AppendHardBreak, LastFace, AppendText, FaceOf, MathSource, ValidFormula, ShownFormula;
    assert Readable(nodes[n], allowsMath);
    match nodes[n] {
      case HardBreak(_) => HardBreakKeeps(output);
      case Text(text, marks) => AppendTextKeeps(output, text, FaceOf(marks, |marks|).value);
      case Math(_, _, _) =>
        FormulaIsShown(nodes[n]);
        PushKeeps(output, Formula(MathSource(nodes[n]).value));
        FormulaEnds(output, MathSource(nodes[n]).value);
    }
  }

  lemma FormulaEnds(output: seq<Content>, latex: string)
    ensures LastFace(output + [Formula(latex)]).None?
  {
  }

  lemma {:induction false} ReadingKeepsMeaningUpTo(nodes: seq<Node>, n: nat, allowsMath: bool)
    requires n <= |nodes| && AllReadable(nodes, allowsMath)
    ensures ReadInto([], nodes, n, allowsMath).Ok?
    ensures SameMeaning(nodes, n, ReadInto([], nodes, n, allowsMath).value, allowsMath)
  {
    hide *;
    if n == 0 {
      NothingRead(nodes, allowsMath);
    } else {
      ReadingKeepsMeaningUpTo(nodes, n - 1, allowsMath);
      var before := ReadInto([], nodes, n - 1, allowsMath).value;
      AppendKeepsMeaning(nodes, n - 1, before, allowsMath);
      ReadNext([], nodes, n, allowsMath, before);
    }
  }

  lemma NothingRead(nodes: seq<Node>, allowsMath: bool)
    ensures ReadInto([], nodes, 0, allowsMath) == Ok([])
    ensures AllReadable(nodes, allowsMath) ==> SameMeaning(nodes, 0, [], allowsMath)
  {
    hide Readable;
  }

  lemma ReadNext(output: seq<Content>, nodes: seq<Node>, n: nat, allowsMath: bool, before: seq<Content>)
    requires 0 < n <= |nodes| && ReadInto(output, nodes, n - 1, allowsMath) == Ok(before)
    ensures ReadInto(output, nodes, n, allowsMath) == Append(before, nodes[n - 1], allowsMath)
  {
    hide Append;
  }

  lemma {:induction false} UnreadableFails(nodes: seq<Node>, n: nat, allowsMath: bool)
    requires n <= |nodes| && ReadInto([], nodes, n, allowsMath).Ok?
    ensures forall k | 0 <= k < n :: Readable(nodes[k], allowsMath)
  {
    if n > 0 {
      UnreadableFails(nodes, n - 1, allowsMath);
      if nodes[n - 1].Math? {
        FormulaIsShown(nodes[n - 1]);
      }
    }
  }

  /**
   Nodes can be read exactly when each of them can, and reading keeps the characters and formulas in order, with
   the styles and link of each; a hard break counts as a newline that looks like the text before it.
   */
  lemma {:induction false} ReadingKeepsMeaning(nodes: seq<Node>, allowsMath: bool)
    ensures Read(nodes, allowsMath).Ok? <==> AllReadable(nodes, allowsMath)
    ensures Read(nodes, allowsMath).Ok? ==>
              var content := Read(nodes, allowsMath).value;
              ContentGlyphs(content, |content|) == NodeGlyphs(nodes, |nodes|, allowsMath)
  {
    if AllReadable(nodes, allowsMath) {
      ReadingKeepsMeaningUpTo(nodes, |nodes|, allowsMath);
    } else if Read(nodes, allowsMath).Ok? {
      UnreadableFails(nodes, |nodes|, allowsMath);
    }
  }

  // ---------------------------------------------------------------------------------------------
  // Writing and reading again
  // ---------------------------------------------------------------------------------------------

  /** A record has each key once. */
  predicate UniqueNames(styles: Styles) {
    forall i, j | 0 <= i < j < |styles| :: styles[i].name != styles[j].name
  }

  predicate Styled(styles: Styles) {
    UniqueNames(styles) && forall k | 0 <= k < |styles| :: Supported(styles[k])
  }

  predicate Fresh(text: string) {
    text != "" && text[0] != '\n'
  }

  predicate CanonicalLink(content: seq<StyledText>) {
    && content != []
    && (forall j | 0 <= j < |content| :: Fresh(content[j].text))
    && (forall j | 0 < j < |content| :: !EqualStyles(content[j].styles, content[j - 1].styles))
  }

  /**
   No empty text, no neighbours that would merge, and no newline first, which would go to the run before, other
   than in a plain run after nothing or a formula.
   */
  predicate CanonicalItem(item: Content, before: Option<Content>) {
    match item
    case Run(run) =>
      && run.text != ""
      && !(before.Some? && before.value.Run? && EqualStyles(before.value.run.styles, run.styles))
      && (Fresh(run.text) || (run.styles == [] && (before.None? || before.value.Formula?)))
    case Link(href, content) =>
      CanonicalLink(content) && !(before.Some? && before.value.Link? && before.value.href == href)
    case Formula(_) => true
    case OtherContent => false
  }

  function Before(content: seq<Content>, k: nat): Option<Content>
    requires k <= |content|
  {
    if k == 0 then None else Some(content[k - 1])
  }

  predicate Canonical(content: seq<Content>) {
    forall k | 0 <= k < |content| :: CanonicalItem(content[k], Before(content, k))
  }

  predicate ItemStyled(item: Content, allowsMath: bool) {
    match item
    case Run(run) => Styled(run.styles)
    case Link(_, content) => forall j | 0 <= j < |content| :: Styled(content[j].styles)
    case Formula(_) => allowsMath
    case OtherContent => false
  }

  /** Content of records with supported styles, and with formulas only where they are allowed. */
  predicate ContentStyled(content: seq<Content>, allowsMath: bool) {
    forall k | 0 <= k < |content| :: ItemStyled(content[k], allowsMath)
  }

  lemma {:induction false} PutNew(styles: Styles, style: Style)
    requires forall k | 0 <= k < |styles| :: styles[k].name != style.name
    ensures Put(styles, style) == styles + [style]
  {
    if styles != [] {
      forall k | 0 <= k < |styles[1..]|
        ensures styles[1..][k].name != style.name
      {
        assert styles[1..][k] == styles[k + 1];
      }
      PutNew(styles[1..], style);
      assert styles + [style] == [styles[0]] + (styles[1..] + [style]);
    }
  }

  lemma {:induction false} FacesOfPrefix(a: seq<Mark>, b: seq<Mark>, n: nat)
    requires n <= |a| && n <= |b| && forall k | 0 <= k < n :: a[k] == b[k]
    ensures FaceOf(a, n) == FaceOf(b, n)
  {
    if n > 0 {
      FacesOfPrefix(a, b, n - 1);
    }
  }

  lemma OneStyleReadsBack(styles: Styles, n: nat)
    requires n < |styles| && Styled(styles)
    ensures WellFormedMark(MarkOf(styles[n]))
    ensures WithMark(Face(styles[..n], None), MarkOf(styles[n])) == Face(styles[..n + 1], None)
  {
    assert Supported(styles[n]);
    PutNew(styles[..n], styles[n]);
    hide Put;
    assert styles[..n + 1] == styles[..n] + [styles[n]];
  }

  lemma {:induction false} MarksNext(styles: Styles, n: nat)
    requires 0 < n <= |styles| && Supported(styles[n - 1]) && MarksOf(styles, n - 1).Ok?
    ensures MarksOf(styles, n) == Ok(MarksOf(styles, n - 1).value + [MarkOf(styles[n - 1])])
  {
    hide Supported, MarkOf;
  }

  lemma {:induction false} FaceSnoc(marks: seq<Mark>, mark: Mark, face: Face)
    requires FaceOf(marks, |marks|) == Ok(face) && WellFormedMark(mark)
    ensures FaceOf(marks + [mark], |marks| + 1) == Ok(WithMark(face, mark))
  {
    FacesOfPrefix(marks, marks + [mark], |marks|);
    hide WithMark, WellFormedMark;
  }

  lemma NoMarks(styles: Styles)
    ensures MarksOf(styles, 0) == Ok([]) && FaceOf([], 0) == Ok(Face(styles[..0], None))
  {
  }

  lemma SupportedAt(styles: Styles, n: nat)
    requires n < |styles| && Styled(styles)
    ensures Supported(styles[n])
  {
  }

  lemma {:induction false} StylesReadBack(styles: Styles, n: nat)
    requires n <= |styles| && Styled(styles)
    ensures MarksOf(styles, n).Ok? && |MarksOf(styles, n).value| == n
    ensures FaceOf(MarksOf(styles, n).value, n) == Ok(Face(styles[..n], None))
  {
    hide *;
    if n == 0 {
      NoMarks(styles);
    } else {
      StylesReadBack(styles, n - 1);
      SupportedAt(styles, n - 1);
      OneStyleReadsBack(styles, n - 1);
      MarksNext(styles, n);
      FaceSnoc(MarksOf(styles, n - 1).value, MarkOf(styles[n - 1]), Face(styles[..n - 1], None));
    }
  }

  lemma MarksReadBack(styles: Styles, href: Option<string>)
    requires Styled(styles)
    ensures MarksOf(styles, |styles|).Ok?
    ensures var marks := MarksOf(styles, |styles|).value + LinkMarks(href);
            FaceOf(marks, |marks|) == Ok(Face(styles, href))
  {
    StylesReadBack(styles, |styles|);
    assert styles[..|styles|] == styles;
    hide Styled, Put, MarksOf;
    var marks := MarksOf(styles, |styles|).value;
    FacesOfPrefix(marks, marks + LinkMarks(href), |marks|);
    if href.None? {
      assert marks + LinkMarks(href) == marks;
    } else {
      assert WithMark(Face(styles, None), Mark("link", Record(href))) == Face(styles, href);
    }
  }

  /** The text typed one character at a time. */
  function Typed(output: seq<Content>, text: string, face: Face): seq<Content> {
    if text == "" then output
    else
      var before := Typed(output, text[..|text| - 1], face);
      var c := text[|text| - 1];
      if c == '\n' then AppendHardBreak(before) else AppendText(before, [c], face)
  }

  lemma ExtendTwice(output: seq<Content>, a: string, b: string)
    requires LastFace(output).Some?
    ensures LastFace(ExtendRun(output, a)).Some?
    ensures ExtendRun(ExtendRun(output, a), b) == ExtendRun(output, a + b)
  {
    var last := output[|output| - 1];
    assert ExtendRun(output, a)[|output| - 1 := last] == output;
    match last {
      case Run(run) => assert (run.text + a) + b == run.text + (a + b);
      case Link(href, content) =>
        var text := content[|content| - 1].text;
        assert (text + a) + b == text + (a + b);
        assert ExtendLast(ExtendLast(content, a), b) == ExtendLast(content, a + b);
    }
  }

  lemma ExtendNew(output: seq<Content>, a: string, b: string, face: Face)
    requires !Matches(output, face)
    ensures LastFace(AppendText(output, a, face)) == Some(face)
    ensures ExtendRun(AppendText(output, a, face), b) == AppendText(output, a + b, face)
  {
    var styles := face.styles;
    if face.href.None? {
      assert (output + [Run(StyledText(a, styles))])[|output| := Run(StyledText(a + b, styles))]
             == output + [Run(StyledText(a + b, styles))];
    } else {
      var href := face.href.value;
      assert ExtendLast([StyledText(a, styles)], b) == [StyledText(a + b, styles)];
      if output != [] && output[|output| - 1].Link? && output[|output| - 1].href == href {
        var content := output[|output| - 1].content;
        assert ExtendLast(content + [StyledText(a, styles)], b) == content + [StyledText(a + b, styles)];
      } else {
        assert (output + [Link(href, [StyledText(a, styles)])])[|output| := Link(href, [StyledText(a + b, styles)])]
               == output + [Link(href, [StyledText(a + b, styles)])];
      }
    }
  }

  lemma AppendTwice(output: seq<Content>, a: string, b: string, face: Face)
    ensures AppendText(AppendText(output, a, face), b, face) == AppendText(output, a + b, face)
  {
    if Matches(output, face) {
      SameRun(output, a, face);
      SameRun(output, a + b, face);
      ExtendRunKeeps(output, a);
      ExtendTwice(output, a, b);
    } else {
      ExtendNew(output, a, b, face);
    }
    var before := AppendText(output, a, face);
    NewOrSameRun(output, a, face);
    SameRun(before, b, face);
    hide *;
  }

  lemma {:induction false} ReadIntoPrefix(output: seq<Content>, a: seq<Node>, b: seq<Node>, n: nat, allowsMath: bool)
    requires n <= |a| && n <= |b| && forall k | 0 <= k < n :: a[k] == b[k]
    ensures ReadInto(output, a, n, allowsMath) == ReadInto(output, b, n, allowsMath)
  {
    hide Append;
    if n > 0 {
      ReadIntoPrefix(output, a, b, n - 1, allowsMath);
    }
  }

  lemma ReadIntoConcat(output: seq<Content>, a: seq<Node>, b: seq<Node>, n: nat, allowsMath: bool, middle: seq<Content>)
    requires n <= |b| && ReadInto(output, a, |a|, allowsMath) == Ok(middle)
    ensures ReadInto(output, a + b, |a| + n, allowsMath) == ReadInto(middle, b, n, allowsMath)
  {
    hide Append;
    if n == 0 {
      ReadIntoPrefix(output, a, a + b, |a|, allowsMath);
    } else {
      ReadIntoConcat(output, a, b, n - 1, allowsMath, middle);
    }
  }

  lemma {:induction false} LineNodesOfPrefix(a: seq<string>, b: seq<string>, marks: seq<Mark>, n: nat)
    requires n <= |a| && n <= |b| && forall k | 0 <= k < n :: a[k] == b[k]
    ensures LineNodes(a, marks, n) == LineNodes(b, marks, n)
  {
    if n > 0 {
      LineNodesOfPrefix(a, b, marks, n - 1);
    }
  }

  /** What one more character adds to the nodes of a text whose last line is `last`: a node, or to the last node. */
  predicate GrowsBy(c: char, nodes: seq<Node>, grown: seq<Node>, last: string, marks: seq<Mark>) {
    if c == '\n' then grown == nodes + [HardBreak(true)]
    else if last == "" then grown == nodes + [Text([c], marks)]
    else nodes != [] && nodes == nodes[..|nodes| - 1] + [Text(last, marks)]
         && grown == nodes[..|nodes| - 1] + [Text(last + [c], marks)]
  }

  lemma {:induction false} NextLines(text: string, c: char)
    ensures var lines := Lines(text);
            Lines(text + [c]) == if c == '\n' then lines + [""] else lines[|lines| - 1 := lines[|lines| - 1] + [c]]
  {
    assert (text + [c])[..|text|] == text;
  }

  lemma NewLine(lines: seq<string>, marks: seq<Mark>)
    requires lines != []
    ensures LineNodes(lines + [""], marks, |lines| + 1) == LineNodes(lines, marks, |lines|) + [HardBreak(true)]
  {
    LineNodesOfPrefix(lines, lines + [""], marks, |lines|);
    assert LineNodes(lines + [""], marks, |lines| + 1) == LineNodes(lines, marks, |lines|) + [HardBreak(true)] + [];
  }

  lemma LongerLine(lines: seq<string>, c: char, marks: seq<Mark>)
    requires lines != [] && c != '\n'
    ensures var n := |lines|;
            GrowsBy(c, LineNodes(lines, marks, n), LineNodes(lines[n - 1 := lines[n - 1] + [c]], marks, n), lines[n - 1], marks)
  {
    var n, last := |lines|, lines[|lines| - 1];
    var more := lines[n - 1 := last + [c]];
    LineNodesOfPrefix(lines, more, marks, n - 1);
    var base := LineNodes(lines, marks, n - 1) + (if n > 1 then [HardBreak(true)] else []);
    assert LineNodes(more, marks, n) == base + [Text(last + [c], marks)];
    if last == "" {
      assert LineNodes(lines, marks, n) == base + [] == base && [] + [c] == [c];
    } else {
      assert LineNodes(lines, marks, n) == base + [Text(last, marks)];
      assert (base + [Text(last, marks)])[..|base|] == base;
    }
    hide LineNodes;
  }

  lemma {:induction false} OneMoreCharacter(text: string, c: char, marks: seq<Mark>)
    ensures var lines, more := Lines(text), Lines(text + [c]);
            GrowsBy(c, LineNodes(lines, marks, |lines|), LineNodes(more, marks, |more|), lines[|lines| - 1], marks)
  {
    NextLines(text, c);
    hide Lines, LineNodes;
    if c == '\n' {
      NewLine(Lines(text), marks);
    } else {
      LongerLine(Lines(text), c, marks);
    }
  }

  lemma {:induction false} ReadLongerLine(output: seq<Content>, prefix: seq<Node>, last: string, c: char, marks: seq<Mark>, face: Face,
                       allowsMath: bool, before: seq<Content>)
    requires FaceOf(marks, |marks|) == Ok(face)
    requires ReadInto(output, prefix + [Text(last, marks)], |prefix| + 1, allowsMath) == Ok(before)
    ensures ReadInto(output, prefix + [Text(last + [c], marks)], |prefix| + 1, allowsMath)
            == Ok(AppendText(before, [c], face))
  {
    ReadSnoc(output, prefix, Text(last, marks), allowsMath);
    ReadSnoc(output, prefix, Text(last + [c], marks), allowsMath);
    AppendTwice(ReadInto(output, prefix, |prefix|, allowsMath).value, last, [c], face);
    hide ReadInto, FaceOf, AppendText;
  }

  /** Reading the nodes of a text is typing it. */
  ghost predicate ReadsAsTyped(output: seq<Content>, text: string, marks: seq<Mark>, face: Face, allowsMath: bool) {
    var nodes := LineNodes(Lines(text), marks, |Lines(text)|);
    ReadInto(output, nodes, |nodes|, allowsMath) == Ok(Typed(output, text, face))
  }

  lemma EmptyReadsAsTyped(output: seq<Content>, marks: seq<Mark>, face: Face, allowsMath: bool)
    ensures ReadsAsTyped(output, "", marks, face, allowsMath)
  {
    hide Append;
    assert LineNodes([""], marks, 1) == LineNodes([""], marks, 0) + [] + [] == [];
  }

  lemma {:induction false} NextReadsAsTyped(output: seq<Content>, rest: string, c: char, marks: seq<Mark>, face: Face, allowsMath: bool)
    requires FaceOf(marks, |marks|) == Ok(face)
    ensures ReadsAsTyped(output, rest, marks, face, allowsMath) ==> ReadsAsTyped(output, rest + [c], marks, face, allowsMath)
  {
    OneMoreCharacter(rest, c, marks);
    TypedNext(output, rest, c, face);
    hide Lines, LineNodes, ReadInto, FaceOf, AppendText, AppendHardBreak, Typed;
    var nodes, last := LineNodes(Lines(rest), marks, |Lines(rest)|), Lines(rest)[|Lines(rest)| - 1];
    if c == '\n' {
      ReadSnoc(output, nodes, HardBreak(true), allowsMath);
    } else if last == "" {
      ReadSnoc(output, nodes, Text([c], marks), allowsMath);
    } else if ReadInto(output, nodes, |nodes|, allowsMath) == Ok(Typed(output, rest, face)) {
      ReadLongerLine(output, nodes[..|nodes| - 1], last, c, marks, face, allowsMath, Typed(output, rest, face));
    }
  }

  lemma TypedNext(output: seq<Content>, rest: string, c: char, face: Face)
    ensures var before := Typed(output, rest, face);
            Typed(output, rest + [c], face) == if c == '\n' then AppendHardBreak(before) else AppendText(before, [c], face)
  {
    hide AppendText, AppendHardBreak;
    assert (rest + [c])[..|rest|] == rest;
  }

  lemma {:induction false} WrittenTextIsTyped(output: seq<Content>, text: string, marks: seq<Mark>, face: Face, allowsMath: bool)
    requires FaceOf(marks, |marks|) == Ok(face)
    ensures ReadsAsTyped(output, text, marks, face, allowsMath)
  {
    hide *;
    if text == "" {
      EmptyReadsAsTyped(output, marks, face, allowsMath);
    } else {
      var rest, c := text[..|text| - 1], text[|text| - 1];
      assert text == rest + [c];
      WrittenTextIsTyped(output, rest, marks, face, allowsMath);
      NextReadsAsTyped(output, rest, c, marks, face, allowsMath);
    }
  }

  lemma ReadSnoc(output: seq<Content>, nodes: seq<Node>, node: Node, allowsMath: bool)
    ensures ReadInto(output, nodes + [node], |nodes + [node]|, allowsMath)
            == match ReadInto(output, nodes, |nodes|, allowsMath)
               case Err(e) => Err(e)
               case Ok(before) => Append(before, node, allowsMath)
  {
    hide Append;
    ReadIntoPrefix(output, nodes, nodes + [node], |nodes|, allowsMath);
  }

  lemma ReadConcat(output: seq<Content>, a: seq<Node>, b: seq<Node>, allowsMath: bool, middle: seq<Content>)
    requires ReadInto(output, a, |a|, allowsMath) == Ok(middle)
    ensures ReadInto(output, a + b, |a + b|, allowsMath) == ReadInto(middle, b, |b|, allowsMath)
  {
    hide ReadInto;
    ReadIntoConcat(output, a, b, |b|, allowsMath, middle);
  }

  /** A text that may start a run is read as one, whatever newlines it holds. */
  lemma {:induction false} TypedIsOneRun(output: seq<Content>, text: string, face: Face)
    requires text != "" && (Fresh(text) || (LastFace(output).None? && face == PLAIN))
    ensures Typed(output, text, face) == AppendText(output, text, face)
  {
    var rest, c := text[..|text| - 1], text[|text| - 1];
    assert text == rest + [c];
    if rest == "" {
      assert Typed(output, rest, face) == output;
    } else {
      TypedIsOneRun(output, rest, face);
      NewOrSameRun(output, rest, face);
      var before := AppendText(output, rest, face);
      SameRun(before, [c], face);
      AppendTwice(output, rest, [c], face);
    }
  }

  lemma NewOrSameRun(output: seq<Content>, text: string, face: Face)
    ensures Matches(AppendText(output, text, face), face)
  {
    AppendTextKeeps(output, text, face);
  }

  lemma {:induction false} WrittenTextReadsBack(output: seq<Content>, item: StyledText, href: Option<string>, allowsMath: bool)
    requires Styled(item.styles) && item.text != ""
    requires Fresh(item.text) || (LastFace(output).None? && item.styles == [] && href.None?)
    ensures WriteText(item, href).Ok?
    ensures var nodes := WriteText(item, href).value;
            ReadInto(output, nodes, |nodes|, allowsMath) == Ok(AppendText(output, item.text, Face(item.styles, href)))
  {
    MarksReadBack(item.styles, href);
    var marks := MarksOf(item.styles, |item.styles|).value + LinkMarks(href);
    WrittenTextIsTyped(output, item.text, marks, Face(item.styles, href), allowsMath);
    TypedIsOneRun(output, item.text, Face(item.styles, href));
  }

  /** The first `n` texts of a link, none when there are none. */
  function Linked(output: seq<Content>, href: string, content: seq<StyledText>): seq<Content> {
    if content == [] then output else output + [Link(href, content)]
  }

  lemma NextLinked(output: seq<Content>, href: string, content: seq<StyledText>, n: nat)
    requires n < |content| && CanonicalLink(content)
    requires output == [] || !output[|output| - 1].Link? || output[|output| - 1].href != href
    ensures AppendText(Linked(output, href, content[..n]), content[n].text, Face(content[n].styles, Some(href)))
            == Linked(output, href, content[..n + 1])
  {
    assert content[..n + 1] == content[..n] + [content[n]];
    var face := Face(content[n].styles, Some(href));
    var before := Linked(output, href, content[..n]);
    if n > 0 {
      assert content[..n][n - 1] == content[n - 1];
      assert before[|output| := Link(href, content[..n] + [content[n]])] == output + [Link(href, content[..n + 1])];
    } else {
      assert content[..1] == [content[0]];
    }
  }

  /** What is written of the first `n` texts of a link reads back. */
  ghost predicate LinkReadsBack(output: seq<Content>, href: string, content: seq<StyledText>, n: nat, allowsMath: bool)
    requires n <= |content|
  {
    match WriteLink(href, content, n)
    case Err(_) => false
    case Ok(nodes) => ReadInto(output, nodes, |nodes|, allowsMath) == Ok(Linked(output, href, content[..n]))
  }

  lemma NextTextReadsBack(output: seq<Content>, href: string, content: seq<StyledText>, n: nat, allowsMath: bool)
    requires n < |content| && CanonicalLink(content) && Styled(content[n].styles)
    requires output == [] || !output[|output| - 1].Link? || output[|output| - 1].href != href
    requires LinkReadsBack(output, href, content, n, allowsMath)
    ensures LinkReadsBack(output, href, content, n + 1, allowsMath)
  {
    NextLinked(output, href, content, n);
    WrittenTextReadsBack(Linked(output, href, content[..n]), content[n], Some(href), allowsMath);
    hide ReadInto, WriteText, Linked, AppendText, LastFace, Styled, CanonicalLink;
    ReadConcat(output, WriteLink(href, content, n).value, WriteText(content[n], Some(href)).value, allowsMath,
               Linked(output, href, content[..n]));
  }

  lemma NoTextWritten(output: seq<Content>, href: string, content: seq<StyledText>, allowsMath: bool)
    ensures LinkReadsBack(output, href, content, 0, allowsMath)
  {
    hide WriteText, Append;
    assert content[..0] == [];
  }

  lemma {:induction false} WrittenLinkReadsBack(output: seq<Content>, href: string, content: seq<StyledText>, n: nat,
                                                allowsMath: bool)
    requires n <= |content| && CanonicalLink(content) && forall j | 0 <= j < |content| :: Styled(content[j].styles)
    requires output == [] || !output[|output| - 1].Link? || output[|output| - 1].href != href
    ensures LinkReadsBack(output, href, content, n, allowsMath)
  {
    hide *;
    if n == 0 {
      NoTextWritten(output, href, content, allowsMath);
    } else {
      WrittenLinkReadsBack(output, href, content, n - 1, allowsMath);
      NextTextReadsBack(output, href, content, n - 1, allowsMath);
    }
  }

  lemma WrittenItemReadsBack(content: seq<Content>, n: nat, allowsMath: bool)
    requires n < |content| && CanonicalItem(content[n], Before(content, n)) && ItemStyled(content[n], allowsMath)
    ensures WriteItem(content[n], allowsMath).Ok?
    ensures var nodes := WriteItem(content[n], allowsMath).value;
            ReadInto(content[..n], nodes, |nodes|, allowsMath) == Ok(content[..n + 1])
  {
    assert content[..n + 1] == content[..n] + [content[n]];
    match content[n] {
      case Run(run) =>
        WrittenTextReadsBack(content[..n], run, None, allowsMath);
      case Link(href, texts) =>
        WrittenLinkReadsBack(content[..n], href, texts, |texts|, allowsMath);
        assert texts[..|texts|] == texts;
      case Formula(latex) =>
        var node := Math(Some(""), if latex == "" then [] else [Text(latex, [])], false);
        assert MathSource(node) == Ok(latex) by {
          if latex != "" {
            assert MathText(node.children, 0) == Ok("") && "" + latex == latex;
          }
        }
        assert ReadInto(content[..n], [node], 0, allowsMath) == Ok(content[..n]);
    }
  }

  /** What is written of the first `n` items reads back. */
  ghost predicate ItemsReadBack(content: seq<Content>, n: nat, allowsMath: bool)
    requires n <= |content|
  {
    match Write(content, n, allowsMath)
    case Err(_) => false
    case Ok(nodes) => Read(nodes, allowsMath) == Ok(content[..n])
  }

  lemma NextItemReadsBack(content: seq<Content>, n: nat, allowsMath: bool)
    requires n < |content| && CanonicalItem(content[n], Before(content, n)) && ItemStyled(content[n], allowsMath)
    requires ItemsReadBack(content, n, allowsMath)
    ensures ItemsReadBack(content, n + 1, allowsMath)
  {
    WrittenItemReadsBack(content, n, allowsMath);
    hide ReadInto, WriteItem, CanonicalItem, ItemStyled;
    ReadConcat([], Write(content, n, allowsMath).value, WriteItem(content[n], allowsMath).value, allowsMath, content[..n]);
  }

  lemma ItemAt(content: seq<Content>, k: nat, allowsMath: bool)
    requires k < |content| && Canonical(content) && ContentStyled(content, allowsMath)
    ensures CanonicalItem(content[k], Before(content, k)) && ItemStyled(content[k], allowsMath)
  {
    hide CanonicalItem, ItemStyled, Before;
  }

  lemma NothingWritten(content: seq<Content>, allowsMath: bool)
    ensures ItemsReadBack(content, 0, allowsMath)
  {
    hide WriteItem, Append;
    assert Write(content, 0, allowsMath) == Ok([]) && content[..0] == [];
  }

  lemma {:induction false} CanonicalReadsBack(content: seq<Content>, n: nat, allowsMath: bool)
    requires n <= |content| && Canonical(content) && ContentStyled(content, allowsMath)
    ensures ItemsReadBack(content, n, allowsMath)
  {
    hide *;
    if n == 0 {
      NothingWritten(content, allowsMath);
    } else {
      ItemAt(content, n - 1, allowsMath);
      CanonicalReadsBack(content, n - 1, allowsMath);
      NextItemReadsBack(content, n - 1, allowsMath);
    }
  }

  // ---------------------------------------------------------------------------------------------
  // What reading produces
  // ---------------------------------------------------------------------------------------------

  /** No text node is empty or starts with a raw newline. */
  predicate WellFormed(nodes: seq<Node>) {
    forall k | 0 <= k < |nodes| && nodes[k].Text? :: Fresh(nodes[k].text)
  }

  lemma ExtendedTextFresh(a: string, b: string)
    requires a != ""
    ensures Fresh(a + b) == Fresh(a) && a + b != ""
  {
    assert (a + b)[0] == a[0];
  }

  lemma ReplaceLastCanonical(output: seq<Content>, item: Content)
    requires output != [] && Canonical(output) && CanonicalItem(item, Before(output, |output| - 1))
    ensures Canonical(output[|output| - 1 := item])
  {
    var after := output[|output| - 1 := item];
    forall k | 0 <= k < |after|
      ensures CanonicalItem(after[k], Before(after, k))
    {
      assert Before(after, k) == Before(output, k);
    }
  }

  lemma PushCanonical(output: seq<Content>, item: Content)
    requires Canonical(output) && CanonicalItem(item, Before(output, |output|))
    ensures Canonical(output + [item])
  {
    var after := output + [item];
    forall k | 0 <= k < |after|
      ensures CanonicalItem(after[k], Before(after, k))
    {
      assert Before(after, k) == Before(output, k);
    }
  }

  lemma ExtendRunCanonical(output: seq<Content>, text: string)
    requires Canonical(output) && LastFace(output).Some?
    ensures Canonical(ExtendRun(output, text))
  {
    var last := output[|output| - 1];
    assert CanonicalItem(last, Before(output, |output| - 1));
    match last {
      case Run(run) =>
        ExtendedTextFresh(run.text, text);
        ReplaceLastCanonical(output, Run(run.(text := run.text + text)));
      case Link(href, content) =>
        ExtendedTextFresh(content[|content| - 1].text, text);
        assert CanonicalLink(ExtendLast(content, text));
        ReplaceLastCanonical(output, Link(href, ExtendLast(content, text)));
    }
  }

  lemma AppendTextCanonical(output: seq<Content>, text: string, face: Face)
    requires Canonical(output) && Fresh(text)
    ensures Canonical(AppendText(output, text, face))
  {
    if Matches(output, face) {
      SameRun(output, text, face);
      ExtendRunCanonical(output, text);
    } else if face.href.None? {
      PushCanonical(output, Run(StyledText(text, face.styles)));
    } else {
      var href, item := face.href.value, StyledText(text, face.styles);
      assert CanonicalLink([item]);
      if output != [] && output[|output| - 1].Link? && output[|output| - 1].href == href {
        assert CanonicalItem(output[|output| - 1], Before(output, |output| - 1));
        ReplaceLastCanonical(output, Link(href, output[|output| - 1].content + [item]));
      } else {
        PushCanonical(output, Link(href, [item]));
      }
    }
  }

  lemma HardBreakCanonical(output: seq<Content>)
    requires Canonical(output)
    ensures Canonical(AppendHardBreak(output))
  {
    if LastFace(output).Some? {
      ExtendRunCanonical(output, "\n");
    } else {
      if output != [] {
        assert CanonicalItem(output[|output| - 1], Before(output, |output| - 1));
      }
      PushCanonical(output, Run(StyledText("\n", [])));
    }
  }

  lemma {:induction false} ReadIsCanonical(nodes: seq<Node>, n: nat, allowsMath: bool)
    requires n <= |nodes| && WellFormed(nodes) && ReadInto([], nodes, n, allowsMath).Ok?
    ensures Canonical(ReadInto([], nodes, n, allowsMath).value)
  {
    if n > 0 {
      ReadIsCanonical(nodes, n - 1, allowsMath);
      var before := ReadInto([], nodes, n - 1, allowsMath).value;
      match nodes[n - 1] {
        case HardBreak(_) => HardBreakCanonical(before);
        case Text(text, marks) => AppendTextCanonical(before, text, FaceOf(marks, |marks|).value);
        case Math(_, _, _) => PushCanonical(before, Formula(MathSource(nodes[n - 1]).value));
      }
    }
  }

  lemma {:induction false} LineNodesFresh(text: string, marks: seq<Mark>, n: nat)
    requires n <= |Lines(text)|
    ensures WellFormed(LineNodes(Lines(text), marks, n))
  {
    if n > 0 {
      LineNodesFresh(text, marks, n - 1);
      LinesAreSplit(text);
      var line := Lines(text)[n - 1];
      assert line != "" ==> line[0] in line;
    }
  }

  lemma {:induction false} LinkNodesFresh(href: string, content: seq<StyledText>, n: nat)
    requires n <= |content| && WriteLink(href, content, n).Ok?
    ensures WellFormed(WriteLink(href, content, n).value)
  {
    if n > 0 {
      LinkNodesFresh(href, content, n - 1);
      WrittenTextFresh(content[n - 1], Some(href));
      hide WriteText;
    }
  }

  lemma WrittenTextFresh(item: StyledText, href: Option<string>)
    requires WriteText(item, href).Ok?
    ensures WellFormed(WriteText(item, href).value)
  {
    LineNodesFresh(item.text, MarksOf(item.styles, |item.styles|).value + LinkMarks(href), |Lines(item.text)|);
  }

  lemma WrittenItemFresh(item: Content, allowsMath: bool)
    requires WriteItem(item, allowsMath).Ok?
    ensures WellFormed(WriteItem(item, allowsMath).value)
  {
    match item {
      case Run(run) => WrittenTextFresh(run, None);
      case Link(href, content) => LinkNodesFresh(href, content, |content|);
      case Formula(_) =>
    }
  }

  /** The writer writes no empty text and no newline in a text. */
  lemma {:induction false} WrittenIsWellFormed(content: seq<Content>, n: nat, allowsMath: bool)
    requires n <= |content| && Write(content, n, allowsMath).Ok?
    ensures WellFormed(Write(content, n, allowsMath).value)
  {
    if n > 0 {
      WrittenIsWellFormed(content, n - 1, allowsMath);
      WrittenItemFresh(content[n - 1], allowsMath);
      hide WriteItem;
    }
  }

  lemma {:induction false} MarksOnlyWhenSupported(styles: Styles, n: nat)
    requires n <= |styles|
    ensures MarksOf(styles, n).Ok? <==> forall k | 0 <= k < n :: Supported(styles[k])
  {
    if n > 0 {
      MarksOnlyWhenSupported(styles, n - 1);
    }
  }

  predicate ItemOfRecords(item: Content) {
    match item
    case Run(run) => UniqueNames(run.styles)
    case Link(_, content) => forall j | 0 <= j < |content| :: UniqueNames(content[j].styles)
    case _ => true
  }

  lemma {:induction false} LinkStyled(href: string, content: seq<StyledText>, n: nat)
    requires n <= |content| && WriteLink(href, content, n).Ok? && forall j | 0 <= j < n :: UniqueNames(content[j].styles)
    ensures forall j | 0 <= j < n :: Styled(content[j].styles)
  {
    if n > 0 {
      LinkStyled(href, content, n - 1);
      MarksOnlyWhenSupported(content[n - 1].styles, |content[n - 1].styles|);
    }
  }

  lemma {:induction false} WrittenStyled(content: seq<Content>, n: nat, allowsMath: bool)
    requires n <= |content| && Write(content, n, allowsMath).Ok? && forall k | 0 <= k < n :: ItemOfRecords(content[k])
    ensures forall k | 0 <= k < n :: ItemStyled(content[k], allowsMath)
  {
    if n > 0 {
      WrittenStyled(content, n - 1, allowsMath);
      match content[n - 1] {
        case Run(run) => MarksOnlyWhenSupported(run.styles, |run.styles|);
        case Link(href, texts) => LinkStyled(href, texts, |texts|);
        case Formula(_) =>
      }
    }
  }

  /**
   Content that can be written is read back unchanged exactly when it is canonical: it has no empty text or link,
   no neighbours that would merge, and no newline that would go to the run before.
   */
  lemma ReadsBackExactlyWhenCanonical(content: seq<Content>, allowsMath: bool)
    requires Write(content, |content|, allowsMath).Ok? && forall k | 0 <= k < |content| :: ItemOfRecords(content[k])
    ensures Read(Write(content, |content|, allowsMath).value, allowsMath) == Ok(content) <==> Canonical(content)
  {
    var nodes := Write(content, |content|, allowsMath).value;
    WrittenStyled(content, |content|, allowsMath);
    WrittenIsWellFormed(content, |content|, allowsMath);
    if Canonical(content) {
      CanonicalReadsBack(content, |content|, allowsMath);
      assert content[..|content|] == content;
    } else if Read(nodes, allowsMath).Ok? {
      ReadIsCanonical(nodes, |nodes|, allowsMath);
    }
  }

  // ---------------------------------------------------------------------------------------------
  // Reading, writing, reading
  // ---------------------------------------------------------------------------------------------

  /** A key that is there is set where it is, and a new one is put last. */
  lemma PutPlaces(styles: Styles, style: Style) returns (k: nat)
    ensures k <= |styles|
    ensures k < |styles| ==> styles[k].name == style.name && Put(styles, style) == styles[k := style]
    ensures k == |styles| ==> Put(styles, style) == styles + [style]
                              && forall i | 0 <= i < |styles| :: styles[i].name != style.name
  {
    if styles == [] || styles[0].name == style.name {
      k := 0;
    } else {
      k := PutPlaces(styles[1..], style);
      assert styles == [styles[0]] + styles[1..];
      k := k + 1;
    }
  }

  /** The last of the first `n` marks with this name. */
  function LastNamed(marks: seq<Mark>, name: string, n: nat): (last: Option<nat>)
    requires n <= |marks|
    ensures last.Some? ==> last.value < n && marks[last.value].name == name
    ensures forall i | 0 <= i < n && marks[i].name == name :: last.Some? && i <= last.value
  {
    if n == 0 then None else if marks[n - 1].name == name then Some(n - 1) else LastNamed(marks, name, n - 1)
  }

  /** The value a mark gives its style. */
  predicate Gives(mark: Mark, value: StyleValue) {
    match value
    case On => mark.name in BOOLEAN_STYLE_MARKS
    case Value(text) => mark.name in STRING_STYLE_MARKS && mark.attributes == Record(Some(text))
    case Absent => mark.name in STRING_STYLE_MARKS && mark.attributes == Record(None)
  }

  /** The link is that of the last link mark. */
  predicate LinkShows(marks: seq<Mark>, n: nat, href: Option<string>)
    requires n <= |marks|
  {
    match LastNamed(marks, "link", n)
    case None => href.None?
    case Some(i) => marks[i].attributes == Record(href)
  }

  predicate ShowsLast(marks: seq<Mark>, n: nat, style: Style)
    requires n <= |marks|
  {
    && style.name != "link"
    && (match LastNamed(marks, style.name, n)
        case None => false
        case Some(i) => Gives(marks[i], style.value))
  }

  /** Each style comes from the last mark of its name, and each name has one. */
  ghost predicate StylesShow(marks: seq<Mark>, n: nat, styles: Styles)
    requires n <= |marks|
  {
    && UniqueNames(styles)
    && (forall k | 0 <= k < |styles| :: ShowsLast(marks, n, styles[k]))
    && (forall i | 0 <= i < n && marks[i].name != "link" :: HasName(styles, marks[i].name))
  }

  predicate HasName(styles: Styles, name: string) {
    exists k | 0 <= k < |styles| :: styles[k].name == name
  }

  /** The one name occurs among the first `n` marks before the other does. */
  ghost predicate NamedFirst(marks: seq<Mark>, n: nat, first: string, second: string) {
    exists i | 0 <= i < n && i < |marks| :: marks[i].name == first && LastNamed(marks, second, i + 1).None?
  }

  ghost predicate NamesInOrder(marks: seq<Mark>, n: nat, styles: Styles) {
    forall a, b | 0 <= a < b < |styles| :: NamedFirst(marks, n, styles[a].name, styles[b].name)
  }

  lemma NamedFirstStays(marks: seq<Mark>, n: nat, first: string, second: string)
    requires NamedFirst(marks, n, first, second)
    ensures NamedFirst(marks, n + 1, first, second)
  {
    var i :| 0 <= i < n && i < |marks| && marks[i].name == first && LastNamed(marks, second, i + 1).None?;
  }

  lemma NamedNew(marks: seq<Mark>, n: nat, first: string, second: string)
    requires n <= |marks| && LastNamed(marks, first, n).Some? && LastNamed(marks, second, n).None?
    ensures NamedFirst(marks, n, first, second)
  {
    var i := LastNamed(marks, first, n).value;
    assert LastNamed(marks, second, i + 1).None?;
  }

  /** What is put at `at`: in the place of a style of this name, or behind all others. */
  ghost predicate PutAt(styles: Styles, style: Style, at: nat, after: Styles) {
    && at <= |styles|
    && (if at < |styles| then styles[at].name == style.name && after == styles[at := style]
        else after == styles + [style] && forall i | 0 <= i < |styles| :: styles[i].name != style.name)
  }

  lemma PutKeepsNames(styles: Styles, style: Style, at: nat, after: Styles)
    requires UniqueNames(styles) && PutAt(styles, style, at, after)
    ensures UniqueNames(after) && HasName(after, style.name)
    ensures forall k | 0 <= k < |styles| :: k < |after| && after[k].name == styles[k].name
    ensures forall name | HasName(styles, name) :: HasName(after, name)
  {
    assert after[at] == style;
    forall name | HasName(styles, name)
      ensures HasName(after, name)
    {
      var k :| 0 <= k < |styles| && styles[k].name == name;
      assert after[k].name == name;
    }
  }

  lemma {:induction false} PutValues(marks: seq<Mark>, n: nat, styles: Styles, style: Style, at: nat, after: Styles)
    requires 0 < n <= |marks| && StylesShow(marks, n - 1, styles) && PutAt(styles, style, at, after)
    requires marks[n - 1].name == style.name != "link" && Gives(marks[n - 1], style.value)
    ensures StylesShow(marks, n, after)
  {
    PutKeepsNames(styles, style, at, after);
    PutNames(marks, n, styles, style, at, after);
    forall k | 0 <= k < |after|
      ensures ShowsLast(marks, n, after[k])
    {
      if k != at {
        assert ShowsLast(marks, n - 1, styles[k]) && after[k] == styles[k] && styles[k].name != style.name;
      }
    }
    hide Gives, HasName, UniqueNames;
  }

  lemma {:induction false} PutNames(marks: seq<Mark>, n: nat, styles: Styles, style: Style, at: nat, after: Styles)
    requires 0 < n <= |marks| && StylesShow(marks, n - 1, styles) && PutAt(styles, style, at, after)
    requires marks[n - 1].name == style.name
    ensures forall i | 0 <= i < n && marks[i].name != "link" :: HasName(after, marks[i].name)
  {
    hide Gives, HasName, UniqueNames, ShowsLast;
    PutKeepsNames(styles, style, at, after);
    forall i | 0 <= i < n && marks[i].name != "link"
      ensures HasName(after, marks[i].name)
    {
      if i < n - 1 {
        assert HasName(styles, marks[i].name);
      }
    }
  }

  lemma {:induction false} PutOrder(marks: seq<Mark>, n: nat, styles: Styles, style: Style, at: nat, after: Styles)
    requires 0 < n <= |marks| && StylesShow(marks, n - 1, styles) && NamesInOrder(marks, n - 1, styles)
    requires PutAt(styles, style, at, after) && style.name != "link"
    ensures NamesInOrder(marks, n, after)
  {
    PutKeepsNames(styles, style, at, after);
    hide Gives, NamedFirst, UniqueNames;
    forall a, b | 0 <= a < b < |after|
      ensures NamedFirst(marks, n, after[a].name, after[b].name)
    {
      if b == |styles| {
        PutBehind(marks, n, styles, style, a);
      } else {
        assert NamedFirst(marks, n - 1, styles[a].name, styles[b].name);
      }
      NamedFirstStays(marks, n - 1, after[a].name, after[b].name);
    }
  }

  lemma NamedHas(marks: seq<Mark>, n: nat, styles: Styles, name: string)
    requires n <= |marks| && StylesShow(marks, n, styles) && name != "link"
    ensures LastNamed(marks, name, n).Some? ==> HasName(styles, name)
  {
    hide Gives, UniqueNames;
  }

  lemma PutBehind(marks: seq<Mark>, n: nat, styles: Styles, style: Style, a: nat)
    requires 0 < n <= |marks| && StylesShow(marks, n - 1, styles) && a < |styles| && style.name != "link"
    requires forall i | 0 <= i < |styles| :: styles[i].name != style.name
    ensures NamedFirst(marks, n - 1, styles[a].name, style.name)
  {
    hide Gives, NamedFirst;
    NamedHas(marks, n - 1, styles, style.name);
    NamedNew(marks, n - 1, styles[a].name, style.name);
  }

  lemma StyleIsGiven(mark: Mark)
    requires WellFormedMark(mark) && mark.name != "link"
    ensures StyleOf(mark).name == mark.name && Gives(mark, StyleOf(mark).value)
  {
  }

  lemma {:induction false} PutShows(marks: seq<Mark>, n: nat, styles: Styles)
    requires 0 < n <= |marks| && StylesShow(marks, n - 1, styles) && NamesInOrder(marks, n - 1, styles)
    requires WellFormedMark(marks[n - 1]) && marks[n - 1].name != "link"
    ensures StylesShow(marks, n, Put(styles, StyleOf(marks[n - 1])))
    ensures NamesInOrder(marks, n, Put(styles, StyleOf(marks[n - 1])))
  {
    hide StylesShow, NamesInOrder, Put, WellFormedMark, Gives, StyleOf;
    var style := StyleOf(marks[n - 1]);
    StyleIsGiven(marks[n - 1]);
    var at := PutPlaces(styles, style);
    PutValues(marks, n, styles, style, at, Put(styles, style));
    PutOrder(marks, n, styles, style, at, Put(styles, style));
  }

  lemma {:induction false} LinkKeepsStyles(marks: seq<Mark>, n: nat, styles: Styles)
    requires 0 < n <= |marks| && StylesShow(marks, n - 1, styles) && NamesInOrder(marks, n - 1, styles) && marks[n - 1].name == "link"
    ensures StylesShow(marks, n, styles) && NamesInOrder(marks, n, styles)
  {
    hide Gives, NamedFirst;
    forall a, b | 0 <= a < b < |styles|
      ensures NamedFirst(marks, n, styles[a].name, styles[b].name)
    {
      NamedFirstStays(marks, n - 1, styles[a].name, styles[b].name);
    }
  }

  lemma {:induction false} WellFormedSoFar(marks: seq<Mark>, n: nat)
    requires n <= |marks|
    ensures FaceOf(marks, n).Ok? <==> forall i | 0 <= i < n :: WellFormedMark(marks[i])
    ensures FaceOf(marks, n).Err? ==>
              exists i | 0 <= i < n :: FaceOf(marks, n).error == InvalidMark(marks[i].name) && !WellFormedMark(marks[i])
                                       && forall j | 0 <= j < i :: WellFormedMark(marks[j])
  {
    if n > 0 {
      WellFormedSoFar(marks, n - 1);
      hide WellFormedMark, WithMark;
    }
  }

  /**
   Marks show the target of the last link mark and, for each other name in the order of first occurrence, the value of
   its last mark; they are read exactly when each is well formed, or refused for the first that is not.
   */
  lemma {:induction false} MarksShow(marks: seq<Mark>, n: nat)
    requires n <= |marks|
    ensures FaceOf(marks, n).Ok? <==> forall i | 0 <= i < n :: WellFormedMark(marks[i])
    ensures FaceOf(marks, n).Err? ==>
              exists i | 0 <= i < n :: FaceOf(marks, n).error == InvalidMark(marks[i].name) && !WellFormedMark(marks[i])
                                       && forall j | 0 <= j < i :: WellFormedMark(marks[j])
    ensures FaceOf(marks, n).Ok? ==>
              && LinkShows(marks, n, FaceOf(marks, n).value.href)
              && StylesShow(marks, n, FaceOf(marks, n).value.styles)
              && NamesInOrder(marks, n, FaceOf(marks, n).value.styles)
  {
    hide *;
    WellFormedSoFar(marks, n);
    if n == 0 {
      NoMarksShow(marks);
    } else if FaceOf(marks, n).Ok? {
      MarksShow(marks, n - 1);
      FaceNext(marks, n);
      var before := FaceOf(marks, n - 1).value;
      LinkShowsNext(marks, n, before);
      if marks[n - 1].name == "link" {
        LinkKeepsStyles(marks, n, before.styles);
      } else {
        PutShows(marks, n, before.styles);
      }
    }
  }

  lemma NoMarksShow(marks: seq<Mark>)
    ensures FaceOf(marks, 0) == Ok(Face([], None)) && LinkShows(marks, 0, None) && StylesShow(marks, 0, []) && NamesInOrder(marks, 0, [])
  {
  }

  lemma {:induction false} FaceNext(marks: seq<Mark>, n: nat)
    requires 0 < n <= |marks| && FaceOf(marks, n).Ok?
    ensures FaceOf(marks, n - 1).Ok? && WellFormedMark(marks[n - 1])
    ensures var before, mark, after := FaceOf(marks, n - 1).value, marks[n - 1], FaceOf(marks, n).value;
            after == if mark.name == "link" then before.(href := mark.attributes.value) else before.(styles := Put(before.styles, StyleOf(mark)))
  {
    hide Put, StyleOf;
  }

  lemma {:induction false} LinkShowsNext(marks: seq<Mark>, n: nat, before: Face)
    requires 0 < n <= |marks| && LinkShows(marks, n - 1, before.href) && WellFormedMark(marks[n - 1])
    ensures LinkShows(marks, n, if marks[n - 1].name == "link" then marks[n - 1].attributes.value else before.href)
  {
  }

  /** A formula in attribute form is read as its attribute. */
  lemma FormulaInAttribute(latex: string)
    ensures Read([Math(Some(latex), [], false)], true) == Ok([Formula(latex)])
  {
    var nodes := [Math(Some(latex), [], false)];
    assert ReadInto([], nodes, 0, true) == Ok([]);
    assert [] + [Formula(latex)] == [Formula(latex)];
  }

  /** A formula is written as the text it holds, with an empty attribute. */
  lemma FormulaHoldsText(latex: string)
    ensures WriteItem(Formula(latex), true).Ok?
    ensures var nodes := WriteItem(Formula(latex), true).value;
            && |nodes| == 1 && nodes[0].Math? && nodes[0].latex == Some("") && !nodes[0].marked
            && ChildText(nodes[0].children) == latex && (latex == "" ==> nodes[0].children == [])
  {
    if latex != "" {
      assert [Text(latex, [])][1..] == [] && latex + "" == latex;
    }
  }

  /** A style that is read can be written, or has no value. */
  predicate ReadStyle(style: Style) {
    Supported(style) || style.value.Absent?
  }

  predicate AnyAbsent(styles: Styles) {
    exists k | 0 <= k < |styles| :: styles[k].value.Absent?
  }

  lemma {:induction false} PutRead(styles: Styles, style: Style)
    requires UniqueNames(styles) && ReadStyle(style) && forall k | 0 <= k < |styles| :: ReadStyle(styles[k])
    ensures UniqueNames(Put(styles, style)) && forall k | 0 <= k < |Put(styles, style)| :: ReadStyle(Put(styles, style)[k])
  {
    var k := PutPlaces(styles, style);
    hide Put, ReadStyle;
  }

  lemma {:induction false} FacesRead(marks: seq<Mark>, n: nat)
    requires n <= |marks| && FaceOf(marks, n).Ok?
    ensures var styles := FaceOf(marks, n).value.styles;
            UniqueNames(styles) && forall k | 0 <= k < |styles| :: ReadStyle(styles[k])
  {
    if n > 0 {
      FacesRead(marks, n - 1);
      var before := FaceOf(marks, n - 1).value;
      var mark := marks[n - 1];
      if mark.name != "link" {
        assert ReadStyle(StyleOf(mark));
        PutRead(before.styles, StyleOf(mark));
      }
      hide Put, UniqueNames, ReadStyle;
    }
  }

  /** The styles read are a record, and can all be written exactly when none is left without its value. */
  lemma {:induction false} FacesStyled(marks: seq<Mark>)
    requires FaceOf(marks, |marks|).Ok?
    ensures UniqueNames(FaceOf(marks, |marks|).value.styles)
    ensures Styled(FaceOf(marks, |marks|).value.styles) <==> !AnyAbsent(FaceOf(marks, |marks|).value.styles)
  {
    FacesRead(marks, |marks|);
    hide FaceOf, UniqueNames;
  }

  /** The text of a node starts a run: nothing or a formula is before it, or something that looks otherwise. */
  predicate StartsRun(nodes: seq<Node>, k: nat, allowsMath: bool)
    requires k < |nodes| && nodes[k].Text? && AllReadable(nodes, allowsMath)
  {
    k == 0 || nodes[k - 1].Math? || BreakFace(nodes, k, allowsMath) != ShownFace(NodeFace(nodes[k]))
  }

  function NodeFace(node: Node): Face
    requires node.Text? && FaceOf(node.marks, |node.marks|).Ok?
  {
    FaceOf(node.marks, |node.marks|).value
  }

  /** No text among the first `n` nodes that starts a run has a style without a value. */
  predicate RunsValued(nodes: seq<Node>, n: nat, allowsMath: bool)
    requires n <= |nodes| && AllReadable(nodes, allowsMath)
  {
    forall k | 0 <= k < n && nodes[k].Text? && StartsRun(nodes, k, allowsMath) ::
      Readable(nodes[k], allowsMath) && !AnyAbsent(NodeFace(nodes[k]).styles)
  }

  lemma {:induction false} RunsValuedNext(nodes: seq<Node>, n: nat, allowsMath: bool)
    requires n < |nodes| && AllReadable(nodes, allowsMath)
    ensures RunsValued(nodes, n + 1, allowsMath)
            <==> RunsValued(nodes, n, allowsMath)
                 && (nodes[n].Text? && StartsRun(nodes, n, allowsMath) ==> !AnyAbsent(NodeFace(nodes[n]).styles))
  {
    hide StartsRun, NodeFace, AnyAbsent;
  }

  lemma PushStyled(output: seq<Content>, item: Content, allowsMath: bool)
    ensures ContentStyled(output + [item], allowsMath) <==> ContentStyled(output, allowsMath) && ItemStyled(item, allowsMath)
  {
    hide ItemStyled;
    var after := output + [item];
    assert after[|output|] == item && forall k | 0 <= k < |output| :: after[k] == output[k];
    if ContentStyled(after, allowsMath) {
      assert forall k | 0 <= k < |output| :: ItemStyled(after[k], allowsMath);
    }
  }

  lemma ReplaceLastStyled(output: seq<Content>, item: Content, allowsMath: bool)
    requires output != []
    ensures ContentStyled(output[|output| - 1 := item], allowsMath)
            <==> ContentStyled(output[..|output| - 1], allowsMath) && ItemStyled(item, allowsMath)
  {
    assert output[|output| - 1 := item] == output[..|output| - 1] + [item];
    PushStyled(output[..|output| - 1], item, allowsMath);
  }

  lemma ExtendRunStyled(output: seq<Content>, text: string, allowsMath: bool)
    requires LastFace(output).Some?
    ensures ContentStyled(ExtendRun(output, text), allowsMath) <==> ContentStyled(output, allowsMath)
  {
    var last := output[|output| - 1];
    var after := match last
      case Run(run) => Run(run.(text := run.text + text))
      case Link(href, content) => Link(href, ExtendLast(content, text));
    ReplaceLastStyled(output, after, allowsMath);
    ReplaceLastStyled(output, last, allowsMath);
    assert output[|output| - 1 := last] == output && output[|output| - 1 := after] == ExtendRun(output, text);
    SameItemStyled(last, after, allowsMath);
    hide ContentStyled, ItemStyled, ExtendRun, ExtendLast;
  }

  /** Items with the same styles can be written alike. */
  lemma SameItemStyled(a: Content, b: Content, allowsMath: bool)
    requires a.Run? ==> b.Run? && b.run.styles == a.run.styles
    requires a.Link? ==> b.Link? && |b.content| == |a.content| && forall j | 0 <= j < |a.content| :: b.content[j].styles == a.content[j].styles
    requires a.Run? || a.Link?
    ensures ItemStyled(a, allowsMath) <==> ItemStyled(b, allowsMath)
  {
    hide Styled;
  }

  lemma LinkPushStyled(href: string, content: seq<StyledText>, item: StyledText, allowsMath: bool)
    ensures ItemStyled(Link(href, content + [item]), allowsMath)
            <==> ItemStyled(Link(href, content), allowsMath) && Styled(item.styles)
  {
    hide Styled;
    var after := content + [item];
    assert after[|content|] == item && forall j | 0 <= j < |content| :: after[j] == content[j];
    if ItemStyled(Link(href, after), allowsMath) {
      assert forall j | 0 <= j < |content| :: Styled(after[j].styles);
    }
  }

  /** Text that starts a run adds its styles to those to be written. */
  lemma NewRunStyled(output: seq<Content>, text: string, face: Face, allowsMath: bool)
    requires !Matches(output, face)
    ensures ContentStyled(AppendText(output, text, face), allowsMath) <==> ContentStyled(output, allowsMath) && Styled(face.styles)
  {
    var item := StyledText(text, face.styles);
    NewRun(output, text, face);
    hide AppendText, Matches, ContentStyled, Styled, LastFace;
    var after := AppendText(output, text, face);
    if face.href.None? {
      PushStyled(output, Run(item), allowsMath);
    } else if after == output + [Link(face.href.value, [item])] {
      PushStyled(output, Link(face.href.value, [item]), allowsMath);
      LinkPushStyled(face.href.value, [], item, allowsMath);
      assert [] + [item] == [item];
    } else {
      var last := output[|output| - 1];
      ReplaceLastStyled(output, Link(last.href, last.content + [item]), allowsMath);
      ReplaceLastStyled(output, last, allowsMath);
      assert output[|output| - 1 := last] == output;
      LinkPushStyled(last.href, last.content, item, allowsMath);
    }
  }

  lemma AppendTextStyled(output: seq<Content>, text: string, face: Face, allowsMath: bool)
    ensures ContentStyled(AppendText(output, text, face), allowsMath)
            <==> ContentStyled(output, allowsMath) && (Matches(output, face) || Styled(face.styles))
  {
    hide AppendText, ExtendRun, ContentStyled, Styled, Shown, LastFace;
    if Matches(output, face) {
      SameRun(output, text, face);
      ExtendRunStyled(output, text, allowsMath);
    } else {
      NewRunStyled(output, text, face, allowsMath);
    }
  }

  lemma HardBreakStyled(output: seq<Content>, allowsMath: bool)
    ensures ContentStyled(AppendHardBreak(output), allowsMath) <==> ContentStyled(output, allowsMath)
  {
    if LastFace(output).Some? {
      ExtendRunStyled(output, "\n", allowsMath);
    } else {
      PushStyled(output, Run(StyledText("\n", [])), allowsMath);
    }
    hide ContentStyled, ExtendRun;
  }

  /** The output ends in a run unless nothing was read, or a formula last. */
  ghost predicate EndsInRun(nodes: seq<Node>, n: nat, output: seq<Content>)
    requires n <= |nodes|
  {
    LastFace(output).None? <==> n == 0 || nodes[n - 1].Math?
  }

  lemma AppendEnds(nodes: seq<Node>, n: nat, output: seq<Content>, allowsMath: bool)
    requires n < |nodes| && Append(output, nodes[n], allowsMath).Ok?
    ensures EndsInRun(nodes, n + 1, Append(output, nodes[n], allowsMath).value)
  {
    match nodes[n] {
      case HardBreak(_) => HardBreakKeeps(output);
      case Text(text, marks) => AppendTextKeeps(output, text, FaceOf(marks, |marks|).value);
      case Math(_, _, _) =>
    }
    hide AppendText, AppendHardBreak, ContentGlyphs, FaceOf;
  }

  lemma StartsWhenUnmatched(nodes: seq<Node>, n: nat, output: seq<Content>, allowsMath: bool)
    requires n < |nodes| && nodes[n].Text? && AllReadable(nodes, allowsMath)
    requires SameMeaning(nodes, n, output, allowsMath) && EndsInRun(nodes, n, output)
    ensures StartsRun(nodes, n, allowsMath) <==> !Matches(output, NodeFace(nodes[n]))
  {
    hide ContentGlyphs, NodeGlyphs, FaceOf, LastFace, BreakFace, Shown;
  }

  /** What the first `n` nodes were read into can be written exactly when no run of them starts without a value. */
  ghost predicate StyledAlike(nodes: seq<Node>, n: nat, output: seq<Content>, allowsMath: bool)
    requires n <= |nodes| && AllReadable(nodes, allowsMath)
  {
    && SameMeaning(nodes, n, output, allowsMath) && EndsInRun(nodes, n, output)
    && (ContentStyled(output, allowsMath) <==> RunsValued(nodes, n, allowsMath))
  }

  lemma AppendStyledAlike(nodes: seq<Node>, n: nat, output: seq<Content>, allowsMath: bool)
    requires n < |nodes| && AllReadable(nodes, allowsMath) && StyledAlike(nodes, n, output, allowsMath)
    ensures Append(output, nodes[n], allowsMath).Ok?
    ensures StyledAlike(nodes, n + 1, Append(output, nodes[n], allowsMath).value, allowsMath)
  {
    AppendKeepsMeaning(nodes, n, output, allowsMath);
    AppendEnds(nodes, n, output, allowsMath);
    RunsValuedNext(nodes, n, allowsMath);
    assert Readable(nodes[n], allowsMath);
    match nodes[n] {
      case HardBreak(_) => HardBreakStyled(output, allowsMath);
      case Text(text, marks) =>
        FacesStyled(marks);
        AppendTextStyled(output, text, NodeFace(nodes[n]), allowsMath);
        StartsWhenUnmatched(nodes, n, output, allowsMath);
      case Math(_, _, _) => PushStyled(output, Formula(MathSource(nodes[n]).value), allowsMath);
    }
    hide SameMeaning, EndsInRun, ContentStyled, RunsValued, StartsRun, Matches, AppendText, AppendHardBreak, Styled, AnyAbsent, FaceOf, MathSource;
  }

  /** The styles read can all be written exactly when every text that starts a run has its values. */
  lemma {:induction false} ReadIsStyled(nodes: seq<Node>, n: nat, allowsMath: bool)
    requires n <= |nodes| && AllReadable(nodes, allowsMath)
    ensures ReadInto([], nodes, n, allowsMath).Ok?
    ensures StyledAlike(nodes, n, ReadInto([], nodes, n, allowsMath).value, allowsMath)
  {
    hide *;
    if n == 0 {
      NothingStyled(nodes, allowsMath);
    } else {
      ReadIsStyled(nodes, n - 1, allowsMath);
      var before := ReadInto([], nodes, n - 1, allowsMath).value;
      AppendStyledAlike(nodes, n - 1, before, allowsMath);
      ReadNext([], nodes, n, allowsMath, before);
    }
  }

  lemma NothingStyled(nodes: seq<Node>, allowsMath: bool)
    requires AllReadable(nodes, allowsMath)
    ensures ReadInto([], nodes, 0, allowsMath) == Ok([]) && StyledAlike(nodes, 0, [], allowsMath)
  {
    NothingRead(nodes, allowsMath);
    hide SameMeaning, AllReadable;
  }

  predicate AllRecords(content: seq<Content>) {
    forall k | 0 <= k < |content| :: ItemOfRecords(content[k])
  }

  lemma AppendTextRecords(output: seq<Content>, text: string, face: Face)
    requires AllRecords(output) && UniqueNames(face.styles)
    ensures AllRecords(AppendText(output, text, face))
  {
    if Matches(output, face) {
      SameRun(output, text, face);
      ExtendRunRecords(output, text);
    } else {
      NewRun(output, text, face);
      var item := StyledText(text, face.styles);
      assert face.href.Some? ==> ItemOfRecords(Link(face.href.value, [item]));
      if output != [] {
        assert ItemOfRecords(output[|output| - 1]);
      }
      hide AppendText, UniqueNames;
    }
  }

  lemma ExtendRunRecords(output: seq<Content>, text: string)
    requires AllRecords(output) && LastFace(output).Some?
    ensures AllRecords(ExtendRun(output, text))
  {
    assert ItemOfRecords(output[|output| - 1]);
    hide UniqueNames;
  }

  lemma {:induction false} ReadIsRecords(nodes: seq<Node>, n: nat, allowsMath: bool)
    requires n <= |nodes| && ReadInto([], nodes, n, allowsMath).Ok?
    ensures AllRecords(ReadInto([], nodes, n, allowsMath).value)
  {
    if n > 0 {
      ReadIsRecords(nodes, n - 1, allowsMath);
      var before := ReadInto([], nodes, n - 1, allowsMath).value;
      match nodes[n - 1] {
        case HardBreak(_) =>
          if LastFace(before).Some? {
            ExtendRunRecords(before, "\n");
          }
        case Text(text, marks) =>
          FacesStyled(marks);
          AppendTextRecords(before, text, FaceOf(marks, |marks|).value);
        case Math(_, _, _) =>
      }
    }
  }

  lemma {:induction false} StyledLinkIsWritten(href: string, content: seq<StyledText>, n: nat)
    requires n <= |content| && forall j | 0 <= j < n :: Styled(content[j].styles)
    ensures WriteLink(href, content, n).Ok?
  {
    if n > 0 {
      StyledLinkIsWritten(href, content, n - 1);
      MarksOnlyWhenSupported(content[n - 1].styles, |content[n - 1].styles|);
    }
  }

  lemma StyledItemIsWritten(item: Content, allowsMath: bool)
    requires ItemStyled(item, allowsMath)
    ensures WriteItem(item, allowsMath).Ok?
  {
    match item {
      case Run(run) => MarksOnlyWhenSupported(run.styles, |run.styles|);
      case Link(href, content) => StyledLinkIsWritten(href, content, |content|);
      case Formula(_) =>
    }
  }

  lemma {:induction false} StyledIsWritten(content: seq<Content>, n: nat, allowsMath: bool)
    requires n <= |content| && ContentStyled(content, allowsMath)
    ensures Write(content, n, allowsMath).Ok?
  {
    if n > 0 {
      StyledIsWritten(content, n - 1, allowsMath);
      assert ItemStyled(content[n - 1], allowsMath);
      StyledItemIsWritten(content[n - 1], allowsMath);
      hide WriteItem, ItemStyled;
    }
  }

  /**
   What was read can be written if and only if no text that starts a run has a style without a value. A text that
   joins the run before it may have one: it shows no style, and the run keeps its own.
   */
  lemma WrittenExactlyWhenValued(nodes: seq<Node>, allowsMath: bool)
    requires AllReadable(nodes, allowsMath)
    ensures Read(nodes, allowsMath).Ok?
    ensures var content := Read(nodes, allowsMath).value;
            Write(content, |content|, allowsMath).Ok? <==> RunsValued(nodes, |nodes|, allowsMath)
  {
    ReadIsStyled(nodes, |nodes|, allowsMath);
    var content := Read(nodes, allowsMath).value;
    ReadIsRecords(nodes, |nodes|, allowsMath);
    hide SameMeaning, EndsInRun, RunsValued, ItemStyled, ItemOfRecords;
    if Write(content, |content|, allowsMath).Ok? {
      WrittenStyled(content, |content|, allowsMath);
    } else if ContentStyled(content, allowsMath) {
      StyledIsWritten(content, |content|, allowsMath);
    }
  }

  /** No colour mark has a record without its value. */
  predicate AllValued(nodes: seq<Node>) {
    forall k | 0 <= k < |nodes| && nodes[k].Text? :: forall mark | mark in nodes[k].marks :: Valued(mark)
  }

  predicate Valued(mark: Mark) {
    mark.name in STRING_STYLE_MARKS && mark.attributes.Record? ==> mark.attributes.value.Some?
  }

  lemma {:induction false} ValuedFace(marks: seq<Mark>, n: nat)
    requires n <= |marks| && FaceOf(marks, n).Ok? && forall mark | mark in marks :: Valued(mark)
    ensures !AnyAbsent(FaceOf(marks, n).value.styles)
  {
    if n > 0 {
      ValuedFace(marks, n - 1);
      var mark := marks[n - 1];
      assert mark in marks;
      if mark.name != "link" {
        assert !StyleOf(mark).value.Absent?;
        var k := PutPlaces(FaceOf(marks, n - 1).value.styles, StyleOf(mark));
      }
      hide Put, StyleOf, Valued;
    }
  }

  /** So it can be written whenever each colour has its value. */
  lemma ValuedColoursAreWritten(nodes: seq<Node>, allowsMath: bool)
    requires AllReadable(nodes, allowsMath) && AllValued(nodes)
    ensures RunsValued(nodes, |nodes|, allowsMath)
    ensures var content := Read(nodes, allowsMath); content.Ok? && Write(content.value, |content.value|, allowsMath).Ok?
  {
    forall k | 0 <= k < |nodes| && nodes[k].Text?
      ensures Readable(nodes[k], allowsMath) && !AnyAbsent(NodeFace(nodes[k]).styles)
    {
      assert Readable(nodes[k], allowsMath);
      ValuedFace(nodes[k].marks, |nodes[k].marks|);
    }
    hide StartsRun, NodeFace, AnyAbsent;
    WrittenExactlyWhenValued(nodes, allowsMath);
  }

  /**
   What is read from well-formed nodes can be written exactly when every text that starts a run has its values.
   Then the nodes written mean the same and are read as the same content: reading once settles it.
   */
  lemma ReadingSettles(nodes: seq<Node>, allowsMath: bool)
    requires WellFormed(nodes) && AllReadable(nodes, allowsMath)
    ensures Read(nodes, allowsMath).Ok?
    ensures var content := Read(nodes, allowsMath).value;
            && (Write(content, |content|, allowsMath).Ok? <==> RunsValued(nodes, |nodes|, allowsMath))
            && (RunsValued(nodes, |nodes|, allowsMath) ==>
                  var written := Write(content, |content|, allowsMath).value;
                  && Read(written, allowsMath) == Ok(content)
                  && AllReadable(written, allowsMath)
                  && NodeGlyphs(written, |written|, allowsMath) == NodeGlyphs(nodes, |nodes|, allowsMath))
  {
    WrittenExactlyWhenValued(nodes, allowsMath);
    var content := Read(nodes, allowsMath).value;
    ReadIsCanonical(nodes, |nodes|, allowsMath);
    ReadIsRecords(nodes, |nodes|, allowsMath);
    ReadingKeepsMeaning(nodes, allowsMath);
    hide *;
    if RunsValued(nodes, |nodes|, allowsMath) {
      RecordsReadBack(content, allowsMath);
      ReadingKeepsMeaning(Write(content, |content|, allowsMath).value, allowsMath);
    }
  }

  lemma {:induction false} RecordsReadBack(content: seq<Content>, allowsMath: bool)
    requires Canonical(content) && AllRecords(content) && Write(content, |content|, allowsMath).Ok?
    ensures Read(Write(content, |content|, allowsMath).value, allowsMath) == Ok(content)
  {
    ReadsBackExactlyWhenCanonical(content, allowsMath);
  }

  /** A colour mark with an empty record is read as a style without a value, which cannot be written alone. */
  lemma EmptyColourCannotBeWritten()
    ensures var styles := [Style("textColor", Absent)];
            && Read([Text("a", [Mark("textColor", Record(None))])], false) == Ok([Run(StyledText("a", styles))])
            && Write([Run(StyledText("a", styles))], 1, false) == Err(UnsupportedStyle("textColor"))
  {
    var mark, styles := Mark("textColor", Record(None)), [Style("textColor", Absent)];
    assert FaceOf([mark], 1) == Ok(Face(styles, None)) by {
      assert FaceOf([mark], 0) == Ok(PLAIN);
    }
    assert ReadInto([], [Text("a", [mark])], 0, false) == Ok([]);
    assert AppendText([], "a", Face(styles, None)) == [Run(StyledText("a", styles))];
    assert MarksOf(styles, 0) == Ok([]);
    assert Write([Run(StyledText("a", styles))], 0, false) == Ok([]);
  }

  /** The same mark does no harm on a text that joins a plain run before it. */
  lemma EmptyColourJoinsRun()
    ensures var nodes := [Text("a", []), Text("b", [Mark("textColor", Record(None))])];
            && Read(nodes, false) == Ok([Run(StyledText("ab", []))])
            && Write([Run(StyledText("ab", []))], 1, false).Ok?
  {
    var mark, styles := Mark("textColor", Record(None)), [Style("textColor", Absent)];
    var nodes := [Text("a", []), Text("b", [mark])];
    assert FaceOf([mark], 1) == Ok(Face(styles, None)) by {
      assert FaceOf([mark], 0) == Ok(PLAIN);
    }
    assert Shown(styles) == [] by {
      assert styles[..0] == [];
    }
    assert ReadInto([], nodes, 0, false) == Ok([]);
    assert AppendText([], "a", PLAIN) == [Run(StyledText("a", []))];
    assert FaceOf([], 0) == Ok(PLAIN);
    assert ReadInto([], nodes, 1, false) == Ok([Run(StyledText("a", []))]);
    assert "a" + "b" == "ab";
    assert AppendText([Run(StyledText("a", []))], "b", Face(styles, None)) == [Run(StyledText("ab", []))];
    assert Write([Run(StyledText("ab", []))], 0, false) == Ok([]);
  }

  lemma BoldBreakIsRead()
    ensures Read([Text("", [Mark("bold", NoRecord)]), HardBreak(true)], false) == Ok([Run(StyledText("\n", [Style("bold", On)]))])
  {
    var bold, styles := Mark("bold", NoRecord), [Style("bold", On)];
    var nodes := [Text("", [bold]), HardBreak(true)];
    assert FaceOf([bold], 1) == Ok(Face(styles, None)) by {
      assert FaceOf([bold], 0) == Ok(PLAIN);
    }
    assert ReadInto([], nodes, 0, false) == Ok([]);
    assert AppendText([], "", Face(styles, None)) == [Run(StyledText("", styles))];
    assert ReadInto([], nodes, 1, false) == Ok([Run(StyledText("", styles))]);
    assert "" + "\n" == "\n";
    assert AppendHardBreak([Run(StyledText("", styles))]) == [Run(StyledText("\n", styles))];
  }

  lemma BoldBreakIsWritten()
    ensures Write([Run(StyledText("\n", [Style("bold", On)]))], 1, false) == Ok([HardBreak(true)])
  {
    var bold, styles := Mark("bold", NoRecord), [Style("bold", On)];
    assert Lines("\n") == ["", ""] by {
      assert "\n"[..0] == "";
    }
    assert MarksOf(styles, 0) == Ok([]);
    assert MarksOf(styles, 1) == Ok([] + [bold]);
    var marks := [] + [bold] + [];
    assert LineNodes(["", ""], marks, 0) == [];
    assert LineNodes(["", ""], marks, 1) == [];
    assert LineNodes(["", ""], marks, 2) == [HardBreak(true)];
    assert Write([Run(StyledText("\n", styles))], 0, false) == Ok([]);
    assert [] + [HardBreak(true)] == [HardBreak(true)];
  }

  lemma BareBreakIsRead()
    ensures Read([HardBreak(true)], false) == Ok([Run(StyledText("\n", []))])
  {
    assert AppendHardBreak([]) == [Run(StyledText("\n", []))];
    assert ReadInto([], [HardBreak(true)], 0, false) == Ok([]);
  }

  /**
   A text node that is empty, or starts with a raw newline, need not settle: its style is lost with the text
   that is not written.
   */
  lemma EmptyTextLosesStyle()
    ensures var nodes := [Text("", [Mark("bold", NoRecord)]), HardBreak(true)];
            && Read(nodes, false) == Ok([Run(StyledText("\n", [Style("bold", On)]))])
            && Write(Read(nodes, false).value, 1, false) == Ok([HardBreak(true)])
            && Read([HardBreak(true)], false) == Ok([Run(StyledText("\n", []))])
  {
    hide *;
    BoldBreakIsRead();
    BoldBreakIsWritten();
    BareBreakIsRead();
  }
}
