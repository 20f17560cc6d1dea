/** The assembler program: files parsed one after the other into one list of nodes and one table
    of variables, then the two passes. */
module Assembling {
  import opened Words
  import opened Arch
  import opened Assembler
  import opened Grammar
  import opened Parsers
  import opened Printing

  /** What the files parse to, each with the variables of the ones before. */
  function ParseFiles(files: seq<seq<Token>>, symbols: Symbols): Option<Parsed>
    decreases |files|
  {
    if files == [] then Some(Parsed([], symbols))
    else
      var first := ParseAll(files[0], symbols);
      if first.None? then None
      else
        var rest := ParseFiles(files[1..], first.value.symbols);
        if rest.None? then None else Some(Parsed(first.value.nodes + rest.value.nodes, rest.value.symbols))
  }

  /** The labels of pass 1 are the only ones that fit the text. */
  lemma LabelsUnique(nodes: seq<Node>, labels: Labels, others: Labels)
    requires MapsPrefix(nodes, |nodes|, labels) && MapsPrefix(nodes, |nodes|, others)
    ensures labels == others
  {
    hide Offset, DefinesAt;
    assert forall l :: l in labels <==> l in others;
  }

  /** The labels pass 1 gives. */
  function LabelsOf(nodes: seq<Node>, n: nat): (labels: Labels)
    requires n <= |nodes| && Unique(nodes, |nodes|) && Offset(nodes, |nodes|) < WORD_LIMIT
    ensures MapsPrefix(nodes, n, labels)
  {
    if n == 0 then map[]
    else
      OffsetMonotone(nodes, n - 1, |nodes|);
      var labels := LabelsOf(nodes, n - 1);
      match Defines(nodes[n - 1])
      case None => labels
      case Some(name) =>
        assert DefinesAt(nodes, n - 1, name);
        labels[name := Offset(nodes, n - 1)]
  }

  /** What the files assemble to, checks apart: they have to parse, resolve and emit. */
  ghost predicate Assembles(files: seq<seq<Token>>, image: seq<Byte>) {
    && ParseFiles(files, map[]).Some?
    && var nodes := ParseFiles(files, map[]).value.nodes;
      && Resolvable(nodes)
      && exists labels: Labels ::
           MapsPrefix(nodes, |nodes|, labels) && Encodable(nodes, labels) && image == Image(nodes, |nodes|, labels)
  }

  /** Assembles the files into an image, or gives none when they assemble to nothing. */
  method Assemble(files: seq<seq<Token>>) returns (image: Option<seq<Byte>>)
    ensures image.Some? ==> Assembles(files, image.value)
    ensures image.None? ==> forall bytes :: !Assembles(files, bytes)
  {
    hide ParseAll, MapsPrefix, Resolvable, Encodable, Image;
    var nodes, symbols := [], map[];
    var n := 0;
    while n < |files|
      invariant n <= |files|
      invariant var all, rest := ParseFiles(files, map[]), ParseFiles(files[n..], symbols);
        && all.Some? == rest.Some?
        && (all.Some? ==> all.value.nodes == nodes + rest.value.nodes)
    {
      assert files[n..][1..] == files[n + 1..];
      var parser := new Parser.FromTokens(files[n], nodes, symbols);
      var ok := parser.Parse();
      if !ok {
        return None;
      }
      nodes, symbols := parser.nodes, parser.symbols;
      n := n + 1;
    }
    assert ParseFiles(files, map[]).value.nodes == nodes;
    var labels := Resolve(nodes);
    if labels.Err? {
      return None;
    }
    var code := Emit(nodes, labels.value);
    if code.Err? {
      forall others | MapsPrefix(nodes, |nodes|, others) ensures !Encodable(nodes, others) {
        LabelsUnique(nodes, labels.value, others);
      }
      return None;
    }
    return Some(code.value);
  }

  /** There is only one image. */
  lemma OneImage(files: seq<seq<Token>>, image: seq<Byte>, labels: Labels)
    requires Assembles(files, image)
    requires MapsPrefix(ParseFiles(files, map[]).value.nodes, |ParseFiles(files, map[]).value.nodes|, labels)
    ensures var nodes := ParseFiles(files, map[]).value.nodes;
      Encodable(nodes, labels) && image == Image(nodes, |nodes|, labels)
  {
    hide ParseFiles, MapsPrefix, Resolvable, Encodable, Image;
    var nodes := ParseFiles(files, map[]).value.nodes;
    var others: Labels :|
      MapsPrefix(nodes, |nodes|, others) && Encodable(nodes, others) && image == Image(nodes, |nodes|, others);
    LabelsUnique(nodes, labels, others);
  }

  // ---------------------------------------------------------------- variable definitions

  datatype Definition = Definition(name: string, w: Word)

  function Define(ds: seq<Definition>, symbols: Symbols): Symbols
    decreases |ds|
  {
    if ds == [] then symbols else Define(ds[1..], symbols[ds[0].name := ds[0].w])
  }

  /** The lines of the definitions, with the given numbers of empty lines in front of them. */
  function DefinitionLines(ds: seq<Definition>, gaps: seq<nat>): seq<Token>
    requires |gaps| == |ds|
  {
    if ds == [] then []
    else
      EmptyLines(gaps[0])
      + ([Variable(ds[0].name), Equal, Integer(ds[0].w), Eol] + DefinitionLines(ds[1..], gaps[1..]))
  }

  lemma {:induction false} DefinitionsRead(ds: seq<Definition>, gaps: seq<nat>, symbols: Symbols)
    requires |gaps| == |ds|
    ensures NextStep(DefinitionLines(ds, gaps), symbols) == Step(Nothing, [], Define(ds, symbols))
    decreases |ds|
  {
    hide EmptyLines;
    if ds == [] {
      NothingLeft(symbols);
    } else {
      var rest := DefinitionLines(ds[1..], gaps[1..]);
      var line := [Variable(ds[0].name), Equal, Integer(ds[0].w), Eol] + rest;
      EmptyLinesSkipped(gaps[0], line, symbols);
      assert line[3..] == [Eol] + rest;
      assert line[3..][1..] == rest;
      DefinitionsRead(ds[1..], gaps[1..], symbols[ds[0].name := ds[0].w]);
    }
  }

  /** A file of definitions has no nodes and adds its variables. */
  lemma DefinitionsParse(ds: seq<Definition>, gaps: seq<nat>, symbols: Symbols)
    requires |gaps| == |ds|
    ensures ParseAll(DefinitionLines(ds, gaps), symbols) == Some(Parsed([], Define(ds, symbols)))
  {
    hide NextStep;
    DefinitionsRead(ds, gaps, symbols);
  }

  lemma {:induction false} DefineLast(ds: seq<Definition>, symbols: Symbols, k: nat)
    requires k < |ds| && forall j :: k < j < |ds| ==> ds[j].name != ds[k].name
    ensures ds[k].name in Define(ds, symbols) && Define(ds, symbols)[ds[k].name] == ds[k].w
    decreases |ds|
  {
    if k == 0 {
      DefineOther(ds[1..], symbols[ds[0].name := ds[0].w], ds[0].name);
    } else {
      DefineLast(ds[1..], symbols[ds[0].name := ds[0].w], k - 1);
    }
  }

  lemma {:induction false} DefineOther(ds: seq<Definition>, symbols: Symbols, name: string)
    requires name in symbols && forall j :: 0 <= j < |ds| ==> ds[j].name != name
    ensures name in Define(ds, symbols) && Define(ds, symbols)[name] == symbols[name]
    decreases |ds|
  {
    if ds != [] {
      DefineOther(ds[1..], symbols[ds[0].name := ds[0].w], name);
    }
  }

  // ---------------------------------------------------------------- the architecture's file

  const ROM_START := "$__rom_start"

  /** What the machine prints about itself for programs to use. */
  const HEADER: seq<Definition> := [
    Definition(ROM_START, ROM_ADDRESS),
    Definition("$__video_meta", VIDEO_META_ADDRESS),
    Definition("$__video_buffer0", VIDEO_BUFFER_0_ADDRESS),
    Definition("$__video_buffer1", VIDEO_BUFFER_1_ADDRESS),
    Definition("$__video_buffer_size", VIDEO_BUFFER_SIZE),
    Definition("$__idt_start", IDT_ADDRESS),
    Definition("$__imask_start", IMASK_ADDRESS),
    Definition("$__keyboard_out", KEYBOARD_OUT_ADDRESS),
    Definition("$__keyboard_in", KEYBOARD_IN_ADDRESS),
    Definition("$__int_timer", INT_TIMER),
    Definition("$__int_vsync", INT_VSYNC),
    Definition("$__int_keyboard", INT_KEYBOARD)
  ]

  const HEADER_GAPS: seq<nat> := [1, 0, 0, 0, 0, 0, 0, 0, 1, 2, 0, 0]

  function HeaderFile(): seq<Token> {
    DefinitionLines(HEADER, HEADER_GAPS)
  }

  /** With the header in front, the variable for the start of the ROM has its address. */
  lemma HeaderDefines()
    ensures ParseAll(HeaderFile(), map[]) == Some(Parsed([], Define(HEADER, map[])))
    ensures ROM_START in Define(HEADER, map[]) && Define(HEADER, map[])[ROM_START] == ROM_ADDRESS
  {
    hide DefinitionLines, Define;
    DefinitionsParse(HEADER, HEADER_GAPS, map[]);
    forall j | 0 < j < |HEADER| ensures HEADER[j].name != ROM_START {
      assert HEADER[j].name[3] != ROM_START[3];
    }
    DefineLast(HEADER, map[], 0);
  }

  /** `#base` with a variable. */
  lemma BaseVariable(name: string, rest: seq<Token>, symbols: Symbols, gap: nat)
    requires name in symbols
    ensures NextStep(EmptyLines(gap) + ([Directive("base"), Variable(name), Eol] + rest), symbols)
         == Step(Found(Base(symbols[name])), rest, symbols)
  {
    hide EmptyLines, Lower;
    var ts := [Directive("base"), Variable(name), Eol] + rest;
    EmptyLinesSkipped(gap, ts, symbols);
    LowerNames();
    assert ts[1..] == [Variable(name), Eol] + rest;
    assert Drop(ts[1..], 2) == rest;
  }
}
