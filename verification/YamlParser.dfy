/** The YAML subset of the task definitions: from raw lines to indented lines, and from those to a value. */
module YamlParser {
  import opened Json
  import opened Options
  import opened YamlText

  datatype Line = Line(indent: nat, content: string)

  datatype Error =
    | BadIndentation(near: string)
    | ExpectedKey(near: string)
    | BadListItem(near: string)
    | Leftover(near: string)

  /** A value and the lines after it. */
  datatype Step<T> = Done(value: T, rest: seq<Line>) | Failed(error: Error)

  predicate IsItem(content: string) {
    "- " <= content
  }

  /** How many of the first lines are indented at least this far. */
  function Deeper(lines: seq<Line>, indent: nat): (n: nat)
    ensures n <= |lines|
  {
    if lines == [] || lines[0].indent < indent then 0 else 1 + Deeper(lines[1..], indent)
  }

  /** The text of a list item, unless it opens a mapping. */
  predicate OpensMapping(rest: string) {
    Divided(rest, ':', Outside).Some? && !("[" <= rest)
  }

  /** The lines of a list item that opens a mapping: its own text, two columns in, and what is indented
      at least as far. */
  function ItemLines(lines: seq<Line>, indent: nat): (sub: seq<Line>)
    requires lines != [] && IsItem(lines[0].content)
    ensures 1 <= |sub| <= |lines|
  {
    [Line(indent + 2, Trim(lines[0].content[2..]))] + lines[1..1 + Deeper(lines[1..], indent + 2)]
  }

  function AfterItem(lines: seq<Line>, indent: nat): (rest: seq<Line>)
    requires lines != []
    ensures |rest| < |lines|
  {
    lines[1 + Deeper(lines[1..], indent + 2)..]
  }

  // The grammar, on the lines that are left

  function ParseBlock(lines: seq<Line>, indent: nat): (r: Step<Value>)
    requires lines != []
    ensures r.Done? ==> |r.rest| <= |lines|
    decreases |lines|, 2
  {
    if IsItem(lines[0].content) then
      match ParseSeq(lines, indent)
      case Done(items, rest) => Done(List(items), rest)
      case Failed(e) => Failed(e)
    else
      match ParseMap(lines, indent, [])
      case Done(fields, rest) => Done(Dict(fields), rest)
      case Failed(e) => Failed(e)
  }

  function ParseSeq(lines: seq<Line>, indent: nat): (r: Step<seq<Value>>)
    ensures r.Done? ==> |r.rest| <= |lines|
    decreases |lines|, 1
  {
    if lines == [] || lines[0].indent < indent || !IsItem(lines[0].content) then Done([], lines)
    else if lines[0].indent > indent then Failed(BadIndentation(lines[0].content))
    else
      var rest := Trim(lines[0].content[2..]);
      if OpensMapping(rest) then
        match ParseMap(ItemLines(lines, indent), indent + 2, [])
        case Failed(e) => Failed(e)
        case Done(fields, left) => if left != [] then Failed(BadListItem(rest))
          else Prepend([Dict(fields)], ParseSeq(AfterItem(lines, indent), indent))
      else Prepend([ScalarValue(rest)], ParseSeq(lines[1..], indent))
  }

  function Prepend(items: seq<Value>, step: Step<seq<Value>>): (r: Step<seq<Value>>)
    ensures r.Done? <==> step.Done?
    ensures r.Done? ==> r.rest == step.rest
  {
    match step
    case Done(more, rest) => Done(items + more, rest)
    case Failed(e) => Failed(e)
  }

  function ParseMap(lines: seq<Line>, indent: nat, result: seq<Field>): (r: Step<seq<Field>>)
    ensures r.Done? ==> |r.rest| <= |lines|
    decreases |lines|, 0
  {
    if lines == [] || lines[0].indent < indent || IsItem(lines[0].content) then Done(result, lines)
    else if lines[0].indent > indent then Failed(BadIndentation(lines[0].content))
    else
      match Divided(lines[0].content, ':', Outside)
      case None => Failed(ExpectedKey(lines[0].content))
      case Some(head) =>
        var key, value := Trim(head.before), Trim(head.after);
        if value != "" then ParseMap(lines[1..], indent, Put(result, key, ScalarValue(value)))
        else if |lines| > 1 && lines[1].indent > indent then
          match ParseBlock(lines[1..], lines[1].indent)
          case Failed(e) => Failed(e)
          case Done(child, rest) => ParseMap(rest, indent, Put(result, key, child))
        else ParseMap(lines[1..], indent, Put(result, key, Dict([])))
  }

  // The parsers themselves: an index into the lines, advanced in loops

  datatype Cursor<T> = At(value: T, next: nat) | Error(error: Error)

  ghost predicate Agrees<T>(lines: seq<Line>, cursor: Cursor<T>, step: Step<T>) {
    match step
    case Done(value, rest) => cursor.At? && cursor.value == value && cursor.next <= |lines|
      && rest == lines[cursor.next..]
    case Failed(e) => cursor == Error(e)
  }

  method ParseBlockAt(lines: seq<Line>, i: nat, indent: nat) returns (r: Cursor<Value>)
    requires i < |lines|
    ensures Agrees(lines, r, ParseBlock(lines[i..], indent))
    decreases |lines| - i, 2
  {
    hide ParseSeq, ParseMap;
    if IsItem(lines[i].content) {
      var items := ParseSeqAt(lines, i, indent);
      match items {
        case At(value, next) => return At(List(value), next);
        case Error(e) => return Error(e);
      }
    }
    var fields := ParseMapAt(lines, i, indent);
    match fields {
      case At(value, next) => return At(Dict(value), next);
      case Error(e) => return Error(e);
    }
  }

  method ParseSeqAt(lines: seq<Line>, start: nat, indent: nat) returns (r: Cursor<seq<Value>>)
    requires start <= |lines|
    ensures Agrees(lines, r, ParseSeq(lines[start..], indent))
    decreases |lines| - start, 1
  {
    hide ParseMap, OpensMapping, ScalarValue, Trim, ParseSeq, Prepend, ItemLines, AfterItem;
    var items: seq<Value> := [];
    var i := start;
    PrependNothing(ParseSeq(lines[start..], indent));
    while i < |lines|
      invariant start <= i <= |lines|
      invariant ParseSeq(lines[start..], indent) == Prepend(items, ParseSeq(lines[i..], indent))
      decreases |lines| - i
    {
      ghost var left := lines[i..];
      assert left[0] == lines[i] && left[1..] == lines[i + 1..];
      var content := lines[i].content;
      if lines[i].indent < indent || !IsItem(content) {
        break;
      }
      if lines[i].indent > indent {
        SeqBadIndent(items, left, indent);
        return Error(BadIndentation(content));
      }
      var rest := Trim(content[2..]);
      if OpensMapping(rest) {
        var sub, j := GatherItem(lines, i, indent);
        var fields := ParseMapAt(sub, 0, indent + 2);
        assert sub[0..] == sub;
        SeqMapping(items, left, indent);
        if fields.Error? {
          return Error(fields.error);
        }
        if fields.next != |sub| {
          return Error(BadListItem(rest));
        }
        items := items + [Dict(fields.value)];
        i := j;
      } else {
        var value := Scalar(rest);
        SeqScalar(items, left, indent);
        items := items + [value];
        i := i + 1;
      }
    }
    SeqEnds(items, lines[i..], indent);
    return At(items, i);
  }

  method GatherItem(lines: seq<Line>, i: nat, indent: nat) returns (sub: seq<Line>, j: nat)
    requires i < |lines| && IsItem(lines[i].content)
    ensures i < j <= |lines| && |sub| == j - i
    ensures sub == ItemLines(lines[i..], indent) && lines[j..] == AfterItem(lines[i..], indent)
  {
    hide Trim, ItemLines, AfterItem;
    sub := [Line(indent + 2, Trim(lines[i].content[2..]))];
    j := i + 1;
    while j < |lines| && lines[j].indent >= indent + 2
      invariant i + 1 <= j <= |lines|
      invariant sub == [Line(indent + 2, Trim(lines[i].content[2..]))] + lines[i + 1..j]
      invariant Deeper(lines[i + 1..], indent + 2) == j - i - 1 + Deeper(lines[j..], indent + 2)
    {
      assert lines[j..][1..] == lines[j + 1..];
      sub := sub + [lines[j]];
      j := j + 1;
    }
    assert Deeper(lines[j..], indent + 2) == 0;
    ItemLinesAre(lines, i, indent, j);
  }

  lemma ItemLinesAre(lines: seq<Line>, i: nat, indent: nat, j: nat)
    requires i < j <= |lines| && IsItem(lines[i].content) && j - i - 1 == Deeper(lines[i + 1..], indent + 2)
    ensures ItemLines(lines[i..], indent) == [Line(indent + 2, Trim(lines[i].content[2..]))] + lines[i + 1..j]
    ensures AfterItem(lines[i..], indent) == lines[j..]
  {
    hide Trim, Deeper;
    assert lines[i..][1..] == lines[i + 1..];
    assert lines[i..][1..j - i] == lines[i + 1..j] && lines[i..][j - i..] == lines[j..];
  }

  // One turn of the loop over list items

  lemma SeqEnds(items: seq<Value>, left: seq<Line>, indent: nat)
    requires left == [] || left[0].indent < indent || !IsItem(left[0].content)
    ensures Prepend(items, ParseSeq(left, indent)) == Done(items, left)
  {
    assert items + [] == items;
  }

  lemma SeqBadIndent(items: seq<Value>, left: seq<Line>, indent: nat)
    requires left != [] && IsItem(left[0].content) && left[0].indent > indent
    ensures Prepend(items, ParseSeq(left, indent)) == Failed(BadIndentation(left[0].content))
  {
  }

  lemma SeqScalar(items: seq<Value>, left: seq<Line>, indent: nat)
    requires left != [] && IsItem(left[0].content) && left[0].indent == indent
             && !OpensMapping(Trim(left[0].content[2..]))
    ensures Prepend(items, ParseSeq(left, indent))
         == Prepend(items + [ScalarValue(Trim(left[0].content[2..]))], ParseSeq(left[1..], indent))
  {
    hide ScalarValue, Trim, OpensMapping, Prepend;
    PrependTwice(items, [ScalarValue(Trim(left[0].content[2..]))], ParseSeq(left[1..], indent));
  }

  lemma SeqMapping(items: seq<Value>, left: seq<Line>, indent: nat)
    requires left != [] && IsItem(left[0].content) && left[0].indent == indent
             && OpensMapping(Trim(left[0].content[2..]))
    ensures Prepend(items, ParseSeq(left, indent))
         == match ParseMap(ItemLines(left, indent), indent + 2, [])
            case Failed(e) => Failed(e)
            case Done(fields, rest) =>
              if rest != [] then Failed(BadListItem(Trim(left[0].content[2..])))
              else Prepend(items + [Dict(fields)], ParseSeq(AfterItem(left, indent), indent))
  {
    hide ScalarValue, Trim, OpensMapping, ParseMap, ItemLines, AfterItem, Prepend;
    PrependFails(items, left, indent);
    match ParseMap(ItemLines(left, indent), indent + 2, [])
    case Failed(e) =>
    case Done(fields, rest) => PrependTwice(items, [Dict(fields)], ParseSeq(AfterItem(left, indent), indent));
  }

  lemma PrependFails(items: seq<Value>, left: seq<Line>, indent: nat)
    ensures ParseSeq(left, indent).Failed? ==> Prepend(items, ParseSeq(left, indent)) == ParseSeq(left, indent)
  {
  }

  lemma PrependNothing(step: Step<seq<Value>>)
    ensures Prepend([], step) == step
  {
    assert step.Done? ==> [] + step.value == step.value;
  }

  lemma PrependTwice(a: seq<Value>, b: seq<Value>, step: Step<seq<Value>>)
    ensures Prepend(a, Prepend(b, step)) == Prepend(a + b, step)
  {
    assert step.Done? ==> a + (b + step.value) == (a + b) + step.value;
  }

  method ParseMapAt(lines: seq<Line>, start: nat, indent: nat) returns (r: Cursor<seq<Field>>)
    requires start <= |lines|
    ensures Agrees(lines, r, ParseMap(lines[start..], indent, []))
    decreases |lines| - start, 0
  {
    hide ParseBlock, ParseMap, ScalarValue, Trim, Put, Divided;
    var result: seq<Field> := [];
    var i := start;
    while i < |lines|
      invariant start <= i <= |lines|
      invariant ParseMap(lines[start..], indent, []) == ParseMap(lines[i..], indent, result)
      decreases |lines| - i
    {
      ghost var left := lines[i..];
      assert left[0] == lines[i] && left[1..] == lines[i + 1..];
      MapStep(left, indent, result);
      var content := lines[i].content;
      if lines[i].indent < indent || IsItem(content) {
        return At(result, i);
      }
      if lines[i].indent > indent {
        return Error(BadIndentation(content));
      }
      var head := SplitUnquoted(content, ':');
      if head.None? {
        return Error(ExpectedKey(content));
      }
      var key, value := Trim(head.value.before), Trim(head.value.after);
      if value == "" {
        if i + 1 < |lines| && lines[i + 1].indent > indent {
          assert left[1] == lines[i + 1];
          var child := ParseBlockAt(lines, i + 1, lines[i + 1].indent);
          if child.Error? {
            return Error(child.error);
          }
          result := Put(result, key, child.value);
          i := child.next;
        } else {
          result := Put(result, key, Dict([]));
          i := i + 1;
        }
      } else {
        var scalar := Scalar(value);
        result := Put(result, key, scalar);
        i := i + 1;
      }
    }
    MapEnds(lines[i..], indent, result);
    return At(result, i);
  }

  lemma MapEnds(left: seq<Line>, indent: nat, result: seq<Field>)
    requires left == [] || left[0].indent < indent || IsItem(left[0].content)
    ensures ParseMap(left, indent, result) == Done(result, left)
  {
  }

  /** One line of a mapping, at its column. */
  function MapLine(left: seq<Line>, indent: nat, result: seq<Field>): Step<seq<Field>>
    requires left != []
  {
    match Divided(left[0].content, ':', Outside)
    case None => Failed(ExpectedKey(left[0].content))
    case Some(head) =>
      var key, value := Trim(head.before), Trim(head.after);
      if value != "" then ParseMap(left[1..], indent, Put(result, key, ScalarValue(value)))
      else if |left| > 1 && left[1].indent > indent then
        match ParseBlock(left[1..], left[1].indent)
        case Failed(e) => Failed(e)
        case Done(child, rest) => ParseMap(rest, indent, Put(result, key, child))
      else ParseMap(left[1..], indent, Put(result, key, Dict([])))
  }

  lemma MapStep(left: seq<Line>, indent: nat, result: seq<Field>)
    requires left != []
    ensures ParseMap(left, indent, result)
         == if left[0].indent < indent || IsItem(left[0].content) then Done(result, left)
            else if left[0].indent > indent then Failed(BadIndentation(left[0].content))
            else MapLine(left, indent, result)
  {
  }

  // From raw lines to indented lines

  function Indent(s: string): (n: nat)
    ensures n <= |s|
  {
    if s != "" && s[0] == ' ' then 1 + Indent(s[1..]) else 0
  }

  const BLOCK_STYLES := {"|", ">", "|-", ">-"}

  function Glue(style: string): string {
    if "|" <= style then "\n" else " "
  }

  /** The text of a block scalar: its lines trimmed and joined. */
  function Joined(lines: seq<string>, glue: string): string {
    if lines == [] then "" else if |lines| == 1 then Trim(lines[0])
      else Trim(lines[0]) + glue + Joined(lines[1..], glue)
  }

  /** A line of a block scalar: blank, or indented deeper than its key. */
  predicate InBody(line: string, indent: nat) {
    Trim(line) == "" || Indent(line) > indent
  }

  function BodyLength(raw: seq<string>, indent: nat): (n: nat)
    ensures n <= |raw|
  {
    if raw == [] || !InBody(raw[0], indent) then 0 else 1 + BodyLength(raw[1..], indent)
  }

  predicate OpensBlock(head: Option<Halves>) {
    head.Some? && Trim(head.value.after) in BLOCK_STYLES
  }

  function BlockLine(indent: nat, head: Halves, body: seq<string>): Line {
    Line(indent, Trim(head.before) + ": " + Encode(Trim(Joined(body, Glue(Trim(head.after))))))
  }

  function Lines(raw: seq<string>): seq<Line>
    decreases |raw|
  {
    if raw == [] then []
    else
      var content := Uncommented(raw[0], Outside, None);
      var stripped := Trim(content);
      var head := Divided(stripped, ':', Outside);
      if stripped == "" then Lines(raw[1..])
      else if OpensBlock(head) then
        var n := BodyLength(raw[1..], Indent(content));
        [BlockLine(Indent(content), head.value, raw[1..1 + n])] + Lines(raw[1 + n..])
      else [Line(Indent(content), stripped)] + Lines(raw[1..])
  }

  datatype Outcome = Parsed(value: Value) | Rejected(error: Error)

  function ParseLines(lines: seq<Line>): Outcome {
    if lines == [] then Parsed(Dict([]))
    else
      match ParseBlock(lines, lines[0].indent)
      case Failed(e) => Rejected(e)
      case Done(value, rest) => if rest == [] then Parsed(value) else Rejected(Leftover(rest[0].content))
  }

  method IndentedLines(raw: seq<string>) returns (lines: seq<Line>)
    ensures lines == Lines(raw)
  {
    hide Uncommented, Trim, Divided, Indent, BlockLine, OpensBlock, Lines, BodyLength;
    lines := [];
    var index := 0;
    assert raw[0..] == raw;
    while index < |raw|
      invariant index <= |raw| && Lines(raw) == lines + Lines(raw[index..])
    {
      ghost var left := raw[index..];
      assert left[0] == raw[index] && left[1..] == raw[index + 1..];
      LinesStep(left);
      var content := StripComment(raw[index]);
      var stripped := Trim(content);
      if stripped == "" {
        index := index + 1;
        continue;
      }
      var indent := Indent(content);
      var head := SplitUnquoted(stripped, ':');
      if OpensBlock(head) {
        BlockHasHead(head);
        var body;
        body, index := GatherBody(raw, index + 1, indent);
        lines := lines + [BlockLine(indent, head.value, body)];
      } else {
        lines := lines + [Line(indent, stripped)];
        index := index + 1;
      }
    }
    NoLines(raw[index..]);
  }

  method GatherBody(raw: seq<string>, first: nat, indent: nat) returns (body: seq<string>, index: nat)
    requires first <= |raw|
    ensures first <= index <= |raw|
    ensures var n := BodyLength(raw[first..], indent); body == raw[first..][..n] && raw[index..] == raw[first..][n..]
  {
    hide InBody;
    body, index := [], first;
    while index < |raw| && InBody(raw[index], indent)
      invariant first <= index <= |raw| && body == raw[first..index]
      invariant BodyLength(raw[first..], indent) == index - first + BodyLength(raw[index..], indent)
    {
      assert raw[index..][1..] == raw[index + 1..];
      body := body + [raw[index]];
      index := index + 1;
    }
    assert BodyLength(raw[index..], indent) == 0;
    assert raw[first..][..index - first] == raw[first..index] && raw[first..][index - first..] == raw[index..];
  }

  lemma NoLines(raw: seq<string>)
    requires raw == []
    ensures Lines(raw) == []
  {
  }

  lemma LinesStep(raw: seq<string>)
    requires raw != []
    ensures var content := Uncommented(raw[0], Outside, None);
            var stripped := Trim(content);
            var head := Divided(stripped, ':', Outside);
            var n := BodyLength(raw[1..], Indent(content));
            Lines(raw) == if stripped == "" then Lines(raw[1..])
                          else if OpensBlock(head) then [BlockLine(Indent(content), head.value, raw[1..][..n])]
                              + Lines(raw[1..][n..])
                          else [Line(Indent(content), stripped)] + Lines(raw[1..])
  {
    hide Uncommented, Trim, Divided, Indent, BlockLine, BodyLength;
    var n := BodyLength(raw[1..], Indent(Uncommented(raw[0], Outside, None)));
    assert raw[1..][..n] == raw[1..1 + n] && raw[1..][n..] == raw[1 + n..];
  }

  lemma BlockHasHead(head: Option<Halves>)
    requires OpensBlock(head)
    ensures head.Some?
  {
  }

  method ParseYaml(raw: seq<string>) returns (r: Outcome)
    ensures r == ParseLines(Lines(raw))
  {
    hide Lines, ParseBlock;
    var lines := IndentedLines(raw);
    if lines == [] {
      return Parsed(Dict([]));
    }
    assert lines[0..] == lines;
    var parsed := ParseBlockAt(lines, 0, lines[0].indent);
    if parsed.Error? {
      return Rejected(parsed.error);
    }
    if parsed.next != |lines| {
      return Rejected(Leftover(lines[parsed.next].content));
    }
    return Parsed(parsed.value);
  }
}
