/** The `--format` argument of the command line: a comma-separated list of report
    formats, or the word "all". */
module Cli {
  import opened Wrappers
  import Str = Text

  /** `OutputFormat`. */
  datatype OutputFormat = Json | Markdown | Text

  /** One token of the list, trimmed and lower-cased, mapped to its format; anything else
      is dropped. */
  function FormatOf(token: string): (r: Option<OutputFormat>)
    ensures r == Some(Json) <==> Str.ToLowerAscii(Str.RustTrim(token)) == "json"
    ensures r == Some(Markdown) <==> Str.ToLowerAscii(Str.RustTrim(token)) in {"markdown", "md"}
    ensures r == Some(Text) <==> Str.ToLowerAscii(Str.RustTrim(token)) in {"text", "txt"}
  {
    match Str.ToLowerAscii(Str.RustTrim(token))
    case "json" => Some(Json)
    case "markdown" => Some(Markdown)
    case "md" => Some(Markdown)
    case "text" => Some(Text)
    case "txt" => Some(Text)
    case _ => None
  }

  /** `filter_map(FormatOf)`: the recognised tokens' formats, in token order. */
  function Recognised(tokens: seq<string>): (r: seq<OutputFormat>)
    ensures |r| <= |tokens|
  {
    if |tokens| == 0 then []
    else
      Recognised(tokens[..|tokens| - 1])
      + match FormatOf(tokens[|tokens| - 1]) case Some(f) => [f] case None => []
  }

  lemma {:induction false} RecognisedAppend(a: seq<string>, b: seq<string>)
    ensures Recognised(a + b) == Recognised(a) + Recognised(b)
    decreases |b|
  {
    if |b| == 0 {
      assert a + b == a;
    } else {
      var b0 := b[..|b| - 1];
      assert (a + b)[..|a + b| - 1] == a + b0;
      RecognisedAppend(a, b0);
    }
  }

  /** `parse_formats`: exactly "all" selects every format; otherwise each comma-separated
      token is recognised on its own. */
  function ParseFormats(format: string): (r: seq<OutputFormat>)
    ensures format == "all" ==> r == [Json, Markdown, Text]
    ensures format != "all" ==> |r| <= |Str.Split(format, ',')|
  {
    if format == "all" then [Json, Markdown, Text] else Recognised(Str.Split(format, ','))
  }

  /** A single token without commas yields its own format, or nothing. */
  lemma SingleToken(token: string)
    requires ',' !in token && token != "all"
    ensures ParseFormats(token) == match FormatOf(token) case Some(f) => [f] case None => []
  {
    Str.IndexOfIs(token, ',', |token|);
    assert Str.Split(token, ',') == [token];
  }

  /** The formats of a list are those of its first part followed by those of the rest, so
      the output follows token order and keeps repeats. */
  lemma ParseFormatsAppend(a: string, b: string)
    requires a != "all" && b != "all"
    ensures ParseFormats(a + [','] + b) == ParseFormats(a) + ParseFormats(b)
  {
    assert a + [','] + b != "all" by {
      assert |a + [','] + b| != 3 || (a + [','] + b)[|a|] == ',';
    }
    Str.SplitAppend(a, b, ',');
    RecognisedAppend(Str.Split(a, ','), Str.Split(b, ','));
  }

  /** Only the exact lower-case word selects every format: a token such as "ALL" or
      " all", which only trims and lower-cases to "all", names no format. */
  lemma AllIsExact(token: string)
    requires token != "all" && ',' !in token
    requires Str.ToLowerAscii(Str.RustTrim(token)) == "all"
    ensures ParseFormats(token) == []
  {
    SingleToken(token);
  }

  /** A repeated token gives a repeated format. */
  lemma RepeatsKept(token: string, f: OutputFormat)
    requires token != "all" && ',' !in token && FormatOf(token) == Some(f)
    ensures ParseFormats(token + [','] + token) == [f, f]
  {
    ParseFormatsAppend(token, token);
    SingleToken(token);
  }
}
