/**
 * The prompt serialiser of the export dialog. The prompt is a sequence of
 * lines: a header naming the grid size, one numbered block per component in
 * (row, col) order, and a fixed footer. `Line` records what each line says;
 * `Render` gives its exact text, and `GeneratePrompt` builds the string with
 * `+=` the way the dialog does.
 */
module Export {
  import opened Wrappers
  import opened JsText
  import opened JsValue
  import opened Grid

  datatype Line =
    | Blank
    | Intro
    | GridTitle
    | GridSize(rows: int, cols: int)
    | CssGridNote
    | ResponsiveNote
    | ComponentsTitle
    | Heading(number: int, title: string)
    | PositionLine(row: int, col: int)
    | SpanLine(rows: int, cols: int)
    | PropertiesHeader
    | PropertyLine(key: string, value: Value)
    | Guidance(text: string)
    | RequirementsTitle
    | TailwindNote
    | SpacingNote
    | GuidelinesNote
    | ModernNote
    | HoverNote

  /** The text of one line, without its terminating newline. */
  function Render(l: Line): string
  {
    match l
    case Blank => ""
    case Intro => "Create a responsive web interface using React and shadcn/ui components with the following layout:"
    case GridTitle => "## Grid Layout"
    case GridSize(r, c) =>
      "- The layout is organized in a " + IntToString(r) + "x" + IntToString(c) + " grid (" +
      IntToString(r) + " rows, " + IntToString(c) + " columns)"
    case CssGridNote => "- Use CSS Grid or a similar layout system to achieve this structure"
    case ResponsiveNote => "- Ensure the layout is responsive and adapts to different screen sizes"
    case ComponentsTitle => "## Components and Positioning"
    case Heading(n, t) => IntToString(n) + ". **" + t + " Component**"
    case PositionLine(r, c) => "   - Position: Row " + IntToString(r) + ", Column " + IntToString(c)
    case SpanLine(r, c) => "   - Span: " + IntToString(c) + " column(s) × " + IntToString(r) + " row(s)"
    case PropertiesHeader => "   - Properties:"
    case PropertyLine(k, v) =>
      "     - " + k + ": " + (if IsObject(v) then Json(v) else "\"" + Show(v) + "\"")
    case Guidance(t) => "   - " + t
    case RequirementsTitle => "## Additional Requirements"
    case TailwindNote => "- Use Tailwind CSS for styling"
    case SpacingNote => "- Maintain consistent spacing and alignment across components"
    case GuidelinesNote => "- Ensure all components are properly styled according to shadcn/ui guidelines"
    case ModernNote => "- The layout should be clean, modern, and professional"
    case HoverNote => "- Add appropriate hover states and transitions where applicable"
  }

  /** The lines rendered by `render`, each followed by a newline. */
  function Joined(lines: seq<Line>, render: Line -> string): string
  {
    if |lines| == 0 then "" else Joined(lines[..|lines| - 1], render) + render(lines[|lines| - 1]) + "\n"
  }

  lemma JoinedAppend(lines: seq<Line>, l: Line, render: Line -> string)
    ensures Joined(lines + [l], render) == Joined(lines, render) + render(l) + "\n"
  {
    assert (lines + [l])[..|lines|] == lines;
  }

  /** Joining is a homomorphism from line concatenation to string concatenation. */
  lemma {:induction false} JoinedConcat(a: seq<Line>, b: seq<Line>, render: Line -> string)
    ensures Joined(a + b, render) == Joined(a, render) + Joined(b, render)
    decreases |b|
  {
    if |b| == 0 {
      assert a + b == a;
    } else {
      var init := b[..|b| - 1];
      JoinedConcat(a, init, render);
      assert (a + b)[..|a + b| - 1] == a + init;
      assert (a + b)[|a + b| - 1] == b[|b| - 1];
    }
  }

  /** The prompt text: every line followed by a newline. */
  function TextOf(lines: seq<Line>): string
  {
    Joined(lines, Render)
  }

  lemma TextOfAppend(lines: seq<Line>, l: Line)
    ensures TextOf(lines + [l]) == TextOf(lines) + Render(l) + "\n"
  {
    JoinedAppend(lines, l, Render);
  }

  lemma TextOfConcat(a: seq<Line>, b: seq<Line>)
    ensures TextOf(a + b) == TextOf(a) + TextOf(b)
  {
    JoinedConcat(a, b, Render);
  }

  function UpperChar(ch: char): char
  {
    if 'a' <= ch <= 'z' then (ch as int - 32) as char else ch
  }

  /** `type.charAt(0).toUpperCase() + type.slice(1)`. */
  function Capitalize(s: string): (r: string)
    ensures |r| == |s|
    ensures |s| > 0 ==> r[0] == UpperChar(s[0]) && r[1..] == s[1..]
  {
    if |s| == 0 then "" else [UpperChar(s[0])] + s[1..]
  }

  /** The ten component types that the `switch` gives a guidance line. */
  const GuidedKinds: set<string> :=
    {"button", "input", "card", "table", "badge", "avatar", "tabs", "accordion", "alert", "sidebar"}

  /** The guidance `switch (type)`: the text of the matching case, if any. */
  function GuidanceFor(kind: string): (r: Option<string>)
    ensures r.Some? <==> kind in GuidedKinds
  {
    match kind
    case "button" => Some("Use shadcn/ui Button component")
    case "input" => Some("Use shadcn/ui Input component")
    case "card" => Some("Use shadcn/ui Card component with CardHeader, CardTitle, CardDescription, and CardContent")
    case "table" => Some("Use shadcn/ui Table component with TableHeader, TableBody, TableRow, TableCell")
    case "badge" => Some("Use shadcn/ui Badge component")
    case "avatar" => Some("Use shadcn/ui Avatar component with AvatarImage and AvatarFallback")
    case "tabs" => Some("Use shadcn/ui Tabs component with TabsList and TabsTrigger")
    case "accordion" => Some("Use shadcn/ui Accordion component with AccordionItem, AccordionTrigger, and AccordionContent")
    case "alert" => Some("Use shadcn/ui Alert component with AlertTitle and AlertDescription")
    case "sidebar" => Some("Use shadcn/ui navigation components for a sidebar menu")
    case _ => None
  }

  function HeaderLines(rows: int, cols: int): seq<Line>
  {
    [Intro, Blank, GridTitle, GridSize(rows, cols), CssGridNote, ResponsiveNote, Blank, ComponentsTitle, Blank]
  }

  const FooterLines: seq<Line> :=
    [RequirementsTitle, TailwindNote, SpacingNote, GuidelinesNote, ModernNote, HoverNote]

  /** One line per property, in key order. */
  function PropertyLines(ps: Props): (r: seq<Line>)
  {
    seq(|ps|, k requires 0 <= k < |ps| => PropertyLine(ps[k].key, ps[k].value))
  }

  /** The heading and the 1-based position of the `n`-th component. */
  function TopLines(n: int, c: Content): seq<Line>
  {
    [Heading(n, Capitalize(c.kind)), PositionLine(c.position.row + 1, c.position.col + 1)]
  }

  /** The span line, present only for a component larger than one cell. */
  function SpanPart(c: Content): seq<Line>
  {
    if c.span.rows > 1 || c.span.cols > 1 then [SpanLine(c.span.rows, c.span.cols)] else []
  }

  /** The properties header and one line per property, present only when there are properties. */
  function PropsPart(ps: Props): seq<Line>
  {
    if |ps| > 0 then [PropertiesHeader] + PropertyLines(ps) else []
  }

  /** The guidance line, present only when the type has one. */
  function GuidePart(guide: Option<string>): seq<Line>
  {
    match guide
    case Some(g) => [Guidance(g)]
    case None => []
  }

  /** The block for the `n`-th component (numbered from 1). */
  function Block(n: int, c: Content, guide: Option<string>): seq<Line>
  {
    TopLines(n, c) + SpanPart(c) + PropsPart(c.properties) + GuidePart(guide) + [Blank]
  }

  /** The blocks of `sorted`, numbered 1 .. |sorted| in list order. */
  function BodyLines(sorted: seq<Content>, guides: string -> Option<string>): seq<Line>
  {
    if |sorted| == 0 then []
    else BodyLines(sorted[..|sorted| - 1], guides) + Block(|sorted|, sorted[|sorted| - 1], guides(sorted[|sorted| - 1].kind))
  }

  /** The whole prompt for a layout. */
  function PromptLines(contents: seq<Content>, rows: int, cols: int): seq<Line>
  {
    HeaderLines(rows, cols) + BodyLines(SortByPosition(contents), GuidanceFor) + FooterLines
  }

  // ------------------------------------------------------ structure lemmas

  /** The kinds of line a reader of the prompt looks for. */
  datatype Tag = HeadingTag | SpanTag | PropertiesTag | PropertyTag | GuidanceTag

  predicate Tagged(l: Line, t: Tag)
  {
    match t
    case HeadingTag => l.Heading?
    case SpanTag => l.SpanLine?
    case PropertiesTag => l.PropertiesHeader?
    case PropertyTag => l.PropertyLine?
    case GuidanceTag => l.Guidance?
  }

  /** The lines of `ls` that carry tag `t`, in order. */
  function Filter(ls: seq<Line>, t: Tag): seq<Line>
  {
    if |ls| == 0 then [] else (if Tagged(ls[0], t) then [ls[0]] else []) + Filter(ls[1..], t)
  }

  lemma FilterSingle(l: Line, t: Tag)
    ensures Filter([l], t) == if Tagged(l, t) then [l] else []
  {
    assert [l][1..] == [];
  }

  lemma {:induction false} FilterAppend(a: seq<Line>, b: seq<Line>, t: Tag)
    ensures Filter(a + b, t) == Filter(a, t) + Filter(b, t)
  {
    if |a| == 0 {
      assert a + b == b;
    } else {
      var head := if Tagged(a[0], t) then [a[0]] else [];
      assert (a + b)[0] == a[0];
      assert (a + b)[1..] == a[1..] + b;
      assert Filter(a + b, t) == head + Filter(a[1..] + b, t);
      FilterAppend(a[1..], b, t);
      AppendAssoc(head, Filter(a[1..], t), Filter(b, t));
    }
  }

  lemma {:induction false} FilterAll(ls: seq<Line>, t: Tag)
    requires forall i :: 0 <= i < |ls| ==> Tagged(ls[i], t)
    ensures Filter(ls, t) == ls
  {
    if |ls| > 0 {
      FilterAll(ls[1..], t);
    }
  }

  lemma {:induction false} FilterNone(ls: seq<Line>, t: Tag)
    requires forall i :: 0 <= i < |ls| ==> !Tagged(ls[i], t)
    ensures Filter(ls, t) == []
  {
    if |ls| > 0 {
      FilterNone(ls[1..], t);
    }
  }

  lemma TopFilter(n: int, c: Content, t: Tag)
    ensures Filter(TopLines(n, c), t) == if t == HeadingTag then [Heading(n, Capitalize(c.kind))] else []
  {
    var h, p := Heading(n, Capitalize(c.kind)), PositionLine(c.position.row + 1, c.position.col + 1);
    assert TopLines(n, c) == [h] + [p];
    FilterAppend([h], [p], t);
    FilterSingle(h, t);
    FilterSingle(p, t);
  }

  lemma SpanFilter(c: Content, t: Tag)
    ensures Filter(SpanPart(c), t) == if t == SpanTag then SpanPart(c) else []
  {
    if c.span.rows > 1 || c.span.cols > 1 {
      FilterSingle(SpanLine(c.span.rows, c.span.cols), t);
    }
  }

  lemma PropsFilter(ps: Props, t: Tag)
    ensures Filter(PropsPart(ps), t) ==
      match t
      case PropertiesTag => if |ps| > 0 then [PropertiesHeader] else []
      case PropertyTag => PropertyLines(ps)
      case _ => []
  {
    if |ps| > 0 {
      FilterAppend([PropertiesHeader], PropertyLines(ps), t);
      FilterSingle(PropertiesHeader, t);
      if t == PropertyTag {
        FilterAll(PropertyLines(ps), t);
      } else {
        FilterNone(PropertyLines(ps), t);
      }
    } else {
      assert PropertyLines(ps) == [];
    }
  }

  lemma GuideFilter(guide: Option<string>, t: Tag)
    ensures Filter(GuidePart(guide), t) == if t == GuidanceTag then GuidePart(guide) else []
  {
    if guide.Some? {
      FilterSingle(Guidance(guide.value), t);
    }
  }

  /** Filtering a block is filtering each of its parts. */
  lemma BlockFilter(n: int, c: Content, guide: Option<string>, t: Tag)
    ensures Filter(Block(n, c, guide), t) ==
      Filter(TopLines(n, c), t) + Filter(SpanPart(c), t) + Filter(PropsPart(c.properties), t)
      + Filter(GuidePart(guide), t) + Filter([Blank], t)
  {
    var top, span, props, guideLines := TopLines(n, c), SpanPart(c), PropsPart(c.properties), GuidePart(guide);
    FilterAppend(top + span + props + guideLines, [Blank], t);
    FilterAppend(top + span + props, guideLines, t);
    FilterAppend(top + span, props, t);
    FilterAppend(top, span, t);
  }

  /** The lines of one tag in a block. */
  lemma BlockTagged(n: int, c: Content, guide: Option<string>, t: Tag)
    ensures Filter(Block(n, c, guide), t) ==
      match t
      case HeadingTag => [Heading(n, Capitalize(c.kind))]
      case SpanTag => SpanPart(c)
      case PropertiesTag => if |c.properties| > 0 then [PropertiesHeader] else []
      case PropertyTag => PropertyLines(c.properties)
      case GuidanceTag => GuidePart(guide)
  {
    BlockFilter(n, c, guide, t);
    TopFilter(n, c, t);
    SpanFilter(c, t);
    PropsFilter(c.properties, t);
    GuideFilter(guide, t);
    FilterSingle(Blank, t);
  }

  /**
   * What one block says: the numbered, capitalised heading; the 1-based
   * position; a span line exactly when the span exceeds 1x1; a properties
   * header exactly when there are properties, and one line per key in key
   * order; the guidance line of its type, if any; a closing blank line.
   */
  lemma BlockFacts(n: int, c: Content, guide: Option<string>)
    ensures var b := Block(n, c, guide);
      |b| >= 3 &&
      b[0] == Heading(n, Capitalize(c.kind)) &&
      b[1] == PositionLine(c.position.row + 1, c.position.col + 1) &&
      b[|b| - 1] == Blank &&
      Filter(b, HeadingTag) == [Heading(n, Capitalize(c.kind))] &&
      Filter(b, SpanTag) == (if c.span.rows > 1 || c.span.cols > 1 then [SpanLine(c.span.rows, c.span.cols)] else []) &&
      Filter(b, PropertiesTag) == (if |c.properties| > 0 then [PropertiesHeader] else []) &&
      Filter(b, PropertyTag) == PropertyLines(c.properties) &&
      Filter(b, GuidanceTag) == (match guide case Some(g) => [Guidance(g)] case None => [])
  {
    BlockTagged(n, c, guide, HeadingTag);
    BlockTagged(n, c, guide, SpanTag);
    BlockTagged(n, c, guide, PropertiesTag);
    BlockTagged(n, c, guide, PropertyTag);
    BlockTagged(n, c, guide, GuidanceTag);
  }

  /** The headings `1. Type0`, `2. Type1`, ... of the components of `sorted`, in list order. */
  function Headings(sorted: seq<Content>): (r: seq<Line>)
    ensures |r| == |sorted|
    ensures forall k :: 0 <= k < |sorted| ==> r[k] == Heading(k + 1, Capitalize(sorted[k].kind))
  {
    seq(|sorted|, k requires 0 <= k < |sorted| => Heading(k + 1, Capitalize(sorted[k].kind)))
  }

  lemma HeadingsSnoc(sorted: seq<Content>)
    requires |sorted| > 0
    ensures Headings(sorted) ==
      Headings(sorted[..|sorted| - 1]) + [Heading(|sorted|, Capitalize(sorted[|sorted| - 1].kind))]
  {
    var init := sorted[..|sorted| - 1];
    var r := Headings(init) + [Heading(|sorted|, Capitalize(sorted[|sorted| - 1].kind))];
    assert |r| == |sorted|;
    forall k | 0 <= k < |sorted| ensures r[k] == Headings(sorted)[k] {
      if k < |init| {
        assert r[k] == Headings(init)[k];
      }
    }
  }

  /** The body's headings are numbered 1 .. n and follow the list order. */
  lemma {:induction false} BodyHeadings(sorted: seq<Content>, guides: string -> Option<string>)
    ensures Filter(BodyLines(sorted, guides), HeadingTag) == Headings(sorted)
  {
    if |sorted| > 0 {
      var init := sorted[..|sorted| - 1];
      var last := sorted[|sorted| - 1];
      BodyHeadings(init, guides);
      BlockTagged(|sorted|, last, guides(last.kind), HeadingTag);
      FilterAppend(BodyLines(init, guides), Block(|sorted|, last, guides(last.kind)), HeadingTag);
      HeadingsSnoc(sorted);
    } else {
      assert Headings(sorted) == [];
    }
  }

  /** Only the blocks hold headings. */
  lemma FrameHasNoHeadings(rows: int, cols: int)
    ensures Filter(HeaderLines(rows, cols), HeadingTag) == []
    ensures Filter(FooterLines, HeadingTag) == []
  {
    FilterNone(HeaderLines(rows, cols), HeadingTag);
    FilterNone(FooterLines, HeadingTag);
  }

  /** The headings of a whole prompt are those of its body. */
  lemma PromptHeadings(sorted: seq<Content>, rows: int, cols: int, guides: string -> Option<string>)
    ensures Filter(HeaderLines(rows, cols) + BodyLines(sorted, guides) + FooterLines, HeadingTag) == Headings(sorted)
  {
    BodyHeadings(sorted, guides);
    FrameHasNoHeadings(rows, cols);
    FilterAppend(HeaderLines(rows, cols) + BodyLines(sorted, guides), FooterLines, HeadingTag);
    FilterAppend(HeaderLines(rows, cols), BodyLines(sorted, guides), HeadingTag);
  }

  /** The fourth line of the prompt states the grid size. */
  lemma PromptGridSize(contents: seq<Content>, rows: int, cols: int)
    ensures |PromptLines(contents, rows, cols)| > 3 && PromptLines(contents, rows, cols)[3] == GridSize(rows, cols)
  {
    var sorted := SortByPosition(contents);
    var header := HeaderLines(rows, cols);
    var rest := BodyLines(sorted, GuidanceFor) + FooterLines;
    AppendAssoc(header, BodyLines(sorted, GuidanceFor), FooterLines);
    assert (header + rest)[3] == header[3];
  }

  /**
   * The prompt states the grid size in its header, lists the components as
   * headings numbered 1 .. n in ascending (row, col) order, and the listed
   * components are a permutation of the layout's.
   */
  lemma PromptFacts(contents: seq<Content>, rows: int, cols: int)
    ensures PromptLines(contents, rows, cols)[3] == GridSize(rows, cols)
    ensures SortedByPosition(SortByPosition(contents)) && multiset(SortByPosition(contents)) == multiset(contents)
    ensures Filter(PromptLines(contents, rows, cols), HeadingTag) == Headings(SortByPosition(contents))
  {
    PromptGridSize(contents, rows, cols);
    PromptHeadings(SortByPosition(contents), rows, cols, GuidanceFor);
  }

  // --------------------------------------------------------- the generator

  lemma AppendAssoc(a: seq<Line>, b: seq<Line>, c: seq<Line>)
    ensures (a + b) + c == a + (b + c)
  {
  }

  lemma PropertyLinesSnoc(ps: Props, k: int)
    requires 0 <= k < |ps|
    ensures PropertyLines(ps[..k + 1]) == PropertyLines(ps[..k]) + [PropertyLine(ps[k].key, ps[k].value)]
  {
  }

  /** `text += line + "\n"`: one more line of the prompt. */
  method AppendLine(text: string, ghost emitted: seq<Line>, line: Line) returns (t: string)
    requires text == TextOf(emitted)
    ensures t == TextOf(emitted + [line])
  {
    TextOfAppend(emitted, line);
    t := text + Render(line) + "\n";
  }

  /** The `Properties:` header and one line per key, in key order; nothing without properties. */
  method PropertiesText(ps: Props) returns (text: string)
    ensures text == TextOf(PropsPart(ps))
  {
    text := "";
    if |ps| > 0 {
      ghost var emitted: seq<Line> := [PropertiesHeader];
      assert [] + [PropertiesHeader] == emitted;
      text := AppendLine(text, [], PropertiesHeader);
      var k := 0;
      while k < |ps|
        invariant 0 <= k <= |ps|
        invariant emitted == [PropertiesHeader] + PropertyLines(ps[..k])
        invariant text == TextOf(emitted)
      {
        var line := PropertyLine(ps[k].key, ps[k].value);
        text := AppendLine(text, emitted, line);
        PropertyLinesSnoc(ps, k);
        AppendAssoc([PropertiesHeader], PropertyLines(ps[..k]), [line]);
        emitted := emitted + [line];
        k := k + 1;
      }
      assert ps[..k] == ps;
    }
  }

  /** The heading line and the position line of the `n`-th component. */
  method TopText(n: int, content: Content) returns (text: string)
    ensures text == TextOf(TopLines(n, content))
  {
    var heading := Heading(n, Capitalize(content.kind));
    var position := PositionLine(content.position.row + 1, content.position.col + 1);
    assert [] + [heading] == [heading];
    text := AppendLine("", [], heading);
    text := AppendLine(text, [heading], position);
    assert [heading] + [position] == TopLines(n, content);
  }

  /** The span line, written only for a component larger than one cell. */
  method SpanText(content: Content) returns (text: string)
    ensures text == TextOf(SpanPart(content))
  {
    text := "";
    if content.span.rows > 1 || content.span.cols > 1 {
      text := AppendLine(text, [], SpanLine(content.span.rows, content.span.cols));
    }
  }

  /** The guidance line, written only when the `switch` has a case for the type. */
  method GuideText(guidance: Option<string>) returns (text: string)
    ensures text == TextOf(GuidePart(guidance))
  {
    text := "";
    if guidance.Some? {
      text := AppendLine(text, [], Guidance(guidance.value));
    }
  }

  /**
   * The body of the `forEach`: the text of the block of the `index`-th
   * component, `guidance` being the outcome of the guidance `switch`.
   */
  method BlockText(index: int, content: Content, guidance: Option<string>) returns (text: string)
    ensures text == TextOf(Block(index + 1, content, guidance))
  {
    ghost var top := TopLines(index + 1, content);
    ghost var span := SpanPart(content);
    ghost var props := PropsPart(content.properties);
    ghost var guide := GuidePart(guidance);
    text := TopText(index + 1, content);
    var part := SpanText(content);
    TextOfConcat(top, span);
    text := text + part;
    part := PropertiesText(content.properties);
    TextOfConcat(top + span, props);
    text := text + part;
    part := GuideText(guidance);
    TextOfConcat(top + span + props, guide);
    text := text + part;
    text := AppendLine(text, top + span + props + guide, Blank);
  }

  lemma BodyLinesSnoc(sorted: seq<Content>, index: int, guides: string -> Option<string>)
    requires 0 <= index < |sorted|
    ensures BodyLines(sorted[..index + 1], guides)
            == BodyLines(sorted[..index], guides) + Block(index + 1, sorted[index], guides(sorted[index].kind))
  {
    var prefix := sorted[..index + 1];
    assert prefix[..index] == sorted[..index] && prefix[index] == sorted[index];
  }

  /** The text of the blocks of `sorted`, numbered from 1 in list order. */
  method BodyText(sorted: seq<Content>, guides: string -> Option<string>) returns (text: string)
    ensures text == TextOf(BodyLines(sorted, guides))
  {
    text := "";
    var index := 0;
    while index < |sorted|
      invariant 0 <= index <= |sorted|
      invariant text == TextOf(BodyLines(sorted[..index], guides))
    {
      var content := sorted[index];
      var block := BlockText(index, content, guides(content.kind));
      TextOfConcat(BodyLines(sorted[..index], guides), Block(index + 1, content, guides(content.kind)));
      BodyLinesSnoc(sorted, index, guides);
      text := text + block;
      index := index + 1;
    }
    assert sorted[..index] == sorted;
  }

  /** `generatePrompt`: sort, then the header, each component's block and the footer. */
  method GeneratePrompt(contents: seq<Content>, rows: int, cols: int) returns (prompt: string)
    ensures prompt == TextOf(PromptLines(contents, rows, cols))
  {
    var sortedContents := SortByPosition(contents);
    prompt := TextOf(HeaderLines(rows, cols));
    var body := BodyText(sortedContents, GuidanceFor);
    prompt := prompt + body;
    prompt := prompt + TextOf(FooterLines);
    TextOfConcat(HeaderLines(rows, cols), BodyLines(sortedContents, GuidanceFor));
    TextOfConcat(HeaderLines(rows, cols) + BodyLines(sortedContents, GuidanceFor), FooterLines);
  }
}
