/**
 * The output transform a wrapped tool applies to the result it forwards:
 * parse a single text part as JSON, run the tool's program on it, keep the
 * first output, and hand back the original result whenever any step fails.
 */
module Transform {
  import opened Wrappers
  import opened Json
  import opened Filters

  /** One content part of a tool result: text, or anything else (image, resource, ...). */
  datatype Part = TextPart(text: string) | OtherPart(kind: string)

  /** The result the upstream tool returned, as forwarded to the wrapper. */
  datatype ToolResult = ToolResult(content: seq<Part>, structured: Option<Json>)

  /**
   * What the wrapper returns: the forwarded result untouched, or a new
   * result built from the given structured content.
   */
  datatype Outcome = Unchanged(result: ToolResult) | Replaced(structured: Json)

  /** The wrapper only tries to transform a result made of exactly one text part. */
  predicate SingleText(r: ToolResult)
  {
    |r.content| == 1 && r.content[0].TextPart?
  }

  function TextOf(r: ToolResult): (t: string)
    requires SingleText(r)
  {
    r.content[0].text
  }

  /** `.first()`: the first output, or nothing when the program emitted none before ending or raising. */
  function First(e: Emission): (r: Option<Json>)
    ensures r.Some? <==> |e.outputs| > 0
    ensures r.Some? ==> r.value == e.outputs[0]
  {
    if |e.outputs| > 0 then Some(e.outputs[0]) else None
  }

  /** The structured content a first output becomes: a dict or null as it is, anything else under "result". */
  function Wrap(v: Json): (w: Json)
    ensures w.Obj? || w.Null?
    ensures v.Obj? || v.Null? ==> w == v
    ensures !v.Obj? && !v.Null? ==> w.Obj? && Keys(w.fields) == ["result"] && Get(w.fields, "result") == Some(v)
  {
    if v.Obj? || v.Null? then v else Obj([("result", v)])
  }

  /**
   * The wrapper's decision tree. `apply` is the tool's compiled program and
   * `parse` is json.loads (None where it raises). The function is total: no
   * failure inside it reaches the caller.
   */
  function CustomOutput(apply: Json -> Emission, parse: string -> Option<Json>, result: ToolResult): (o: Outcome)
    ensures o.Unchanged? ==> o.result == result
    ensures o.Replaced? <==>
      SingleText(result) && parse(TextOf(result)).Some? && |apply(parse(TextOf(result)).value).outputs| > 0
    ensures o.Replaced? ==> o.structured.Obj? || o.structured.Null?
    ensures o.Replaced? ==>
      var v := apply(parse(TextOf(result)).value).outputs[0];
      (v.Obj? || v.Null? ==> o.structured == v) &&
      (!v.Obj? && !v.Null? ==> o.structured == Obj([("result", v)]))
  {
    if !SingleText(result) then Unchanged(result)
    else match parse(TextOf(result))
      case None => Unchanged(result)
      case Some(parsed) =>
        match First(apply(parsed))
        case None => Unchanged(result)
        case Some(v) => Replaced(Wrap(v))
  }

  /** The program a wrapped tool closes over; None stands for a tool that resolved no filter. */
  function Run(program: Option<Filter>): (apply: Json -> Emission)
    ensures forall j :: |apply(j).outputs| <= 1
    ensures program.None? ==> forall j :: apply(j).outputs == [] && apply(j).raised
    ensures program.Some? ==> forall j :: apply(j) == Execute(program.value, j)
  {
    match program
    case Some(f) => (j: Json) => Execute(f, j)
    // calling a method on None raises inside the wrapper's try block
    case None => (j: Json) => Emission([], true)
  }

  /** Only the first output counts: programs that agree on it give the same outcome, whatever follows it. */
  lemma OnlyFirstOutputMatters(apply1: Json -> Emission, apply2: Json -> Emission,
                               parse: string -> Option<Json>, result: ToolResult)
    requires forall j :: First(apply1(j)) == First(apply2(j))
    ensures CustomOutput(apply1, parse, result) == CustomOutput(apply2, parse, result)
  {
  }

  /** A tool with no program returns every result exactly as the upstream sent it. */
  lemma NoProgramPassesThrough(parse: string -> Option<Json>, result: ToolResult)
    ensures CustomOutput(Run(None), parse, result) == Unchanged(result)
  {
  }
}
