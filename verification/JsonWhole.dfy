/** The printer and the parser, one after the other. */
module JsonWhole {
  import opened JsonParseBuffer
  import opened JsonPrint
  import opened JsonRender
  import opened JsonRenderFacts
  import opened JsonRoundTrip
  import opened JsonTree
  import opened Wrappers

  /** `cJSON_Print` or `cJSON_PrintUnformatted`, and `cJSON_ParseWithOpts` on what it returned: the tree comes back
      exactly if the text fits in an `int` with two bytes to spare and the nesting is within the limit. */
  method PrintAndParse(v: JSON, format: bool, reallocates: bool, requireNullTerminated: bool)
    returns (item: Option<JSON>)
    requires Printable(v)
    ensures item == Some(v) <==> |Render(v, format, 0)| + 2 <= INT_MAX && Height(v) <= NESTING_LIMIT
  {
    hide Render, Printable, NulFree;
    var printed := Print(v, format, reallocates);
    if printed == null {
      return None;
    }
    var text := printed[..printed.Length - 1];
    assert text == Render(v, format, 0);
    RenderNulFree(v, format, 0);
    RoundTripExactly(v, format, requireNullTerminated);
    var end;
    item, end := ParseWithOpts(text, requireNullTerminated);
  }
}
