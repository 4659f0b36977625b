/**
 * The prompt assembly of lib/ai/prompts.ts: the system prompt is the
 * regular prompt, then the request's origin, then (except for the
 * reasoning model) the artifacts guide; the update prompt names the
 * document's media type and ends with its current content.
 *
 * The long fixed prompt texts are parameters (`Texts`): only how they are
 * put together is modelled.
 */
module Prompts {
  import opened Options
  import opened Text

  /** The fixed texts `regularPrompt` and `artifactsPrompt`. */
  datatype Texts = Texts(regular: string, artifacts: string)

  /** The request's geolocation; each field may be undefined. */
  datatype RequestHints = RequestHints(latitude: Option<string>, longitude: Option<string>,
                                       city: Option<string>, country: Option<string>)

  /** The model id for which the artifacts guide is left out. */
  const ReasoningModel := "chat-model-reasoning"

  const HeaderLine := "About the origin of user's request:"

  /** How a template string renders a value that may be undefined. */
  function Render(v: Option<string>): string {
    v.GetOr("undefined")
  }

  /** `getRequestPromptFromHints`: a header and four labelled lines, each ended by a newline. */
  function RequestPrompt(h: RequestHints): (r: string)
    ensures StartsWith(r, HeaderLine + "\n") && r[|r| - 1] == '\n'
  {
    HeaderLine + "\n"
    + ("- lat: " + Render(h.latitude)) + "\n"
    + ("- lon: " + Render(h.longitude)) + "\n"
    + ("- city: " + Render(h.city)) + "\n"
    + ("- country: " + Render(h.country)) + "\n"
  }

  /** `systemPrompt({selectedChatModel, requestHints})`. */
  function SystemPrompt(texts: Texts, selectedChatModel: string, hints: RequestHints): string {
    var requestPrompt := RequestPrompt(hints);
    if selectedChatModel == ReasoningModel then texts.regular + "\n\n" + requestPrompt
    else texts.regular + "\n\n" + requestPrompt + "\n\n" + texts.artifacts
  }

  /**
   * The system prompt starts with the regular prompt and the request's
   * origin; for every model but the reasoning one the artifacts guide
   * follows, after a blank line.
   */
  lemma SystemPromptShape(texts: Texts, model: string, hints: RequestHints)
    ensures var base := texts.regular + "\n\n" + RequestPrompt(hints);
            var r := SystemPrompt(texts, model, hints);
            && StartsWith(r, texts.regular)
            && StartsWith(r, base)
            && (model == ReasoningModel <==> r == base)
            && (model != ReasoningModel ==> r[|base|..] == "\n\n" + texts.artifacts)
  {
    var base := texts.regular + "\n\n" + RequestPrompt(hints);
    var r := SystemPrompt(texts, model, hints);
    assert base[..|texts.regular|] == texts.regular;
    if model != ReasoningModel {
      assert r == base + ("\n\n" + texts.artifacts);
      assert r[..|base|] == base;
    }
  }

  /** The request prompt determines every hint: distinct hints give distinct prompts. */
  lemma RequestPromptInjective(a: RequestHints, b: RequestHints)
    requires SingleLineHints(a) && SingleLineHints(b)
    requires RequestPrompt(a) == RequestPrompt(b)
    ensures Render(a.latitude) == Render(b.latitude) && Render(a.longitude) == Render(b.longitude)
    ensures Render(a.city) == Render(b.city) && Render(a.country) == Render(b.country)
  {
    var la, lb := RequestLines(a), RequestLines(b);
    RequestPromptLines(a);
    RequestPromptLines(b);
    assert la == lb;
    assert la[1] == lb[1] && la[2] == lb[2] && la[3] == lb[3] && la[4] == lb[4];
    LabelInjective("- lat: ", Render(a.latitude), Render(b.latitude));
    LabelInjective("- lon: ", Render(a.longitude), Render(b.longitude));
    LabelInjective("- city: ", Render(a.city), Render(b.city));
    LabelInjective("- country: ", Render(a.country), Render(b.country));
  }

  lemma LabelInjective(tag: string, x: string, y: string)
    requires tag + x == tag + y
    ensures x == y
  {
    assert x == (tag + x)[|tag|..];
    assert y == (tag + y)[|tag|..];
  }

  /** The lines of the request prompt, in order: header, lat, lon, city, country, and an empty last piece. */
  function RequestLines(h: RequestHints): seq<string> {
    [HeaderLine,
     "- lat: " + Render(h.latitude),
     "- lon: " + Render(h.longitude),
     "- city: " + Render(h.city),
     "- country: " + Render(h.country),
     ""]
  }

  /** Split on newlines, the request prompt gives the header and the four hint lines in the order lat, lon, city, country. */
  lemma RequestPromptLines(h: RequestHints)
    requires SingleLineHints(h)
    ensures Split(RequestPrompt(h)) == RequestLines(h)
  {
    var lat, lon := "- lat: " + Render(h.latitude), "- lon: " + Render(h.longitude);
    var city, country := "- city: " + Render(h.city), "- country: " + Render(h.country);
    assert '\n' !in HeaderLine;
    LineNoNewline("- lat: ", h.latitude);
    LineNoNewline("- lon: ", h.longitude);
    LineNoNewline("- city: ", h.city);
    LineNoNewline("- country: ", h.country);
    SplitJoin([HeaderLine, lat, lon, city, country, ""]);
    JoinFiveLines(HeaderLine, lat, lon, city, country);
  }

  /** Five lines, each ended by a newline, are the join of the five and an empty last piece. */
  lemma JoinFiveLines(a: string, b: string, c: string, d: string, e: string)
    ensures Join([a, b, c, d, e, ""]) == a + "\n" + b + "\n" + c + "\n" + d + "\n" + e + "\n"
  {
    var lines := [a, b, c, d, e, ""];
    assert lines[1..] == [b, c, d, e, ""];
    assert lines[2..] == [c, d, e, ""];
    assert lines[3..] == [d, e, ""];
    assert lines[4..] == [e, ""];
    assert lines[5..] == [""];
    assert Join(lines[4..]) == e + "\n";
    assert Join(lines[3..]) == d + "\n" + (e + "\n");
    assert Join(lines[2..]) == c + "\n" + (d + "\n" + (e + "\n"));
    assert Join(lines[1..]) == b + "\n" + (c + "\n" + (d + "\n" + (e + "\n")));
  }

  lemma LineNoNewline(tag: string, v: Option<string>)
    requires '\n' !in tag && SingleLine(v)
    ensures '\n' !in tag + Render(v)
  {
  }

  /** A hint that is undefined or holds no newline. */
  predicate SingleLine(v: Option<string>) {
    v.Some? ==> '\n' !in v.value
  }

  predicate SingleLineHints(h: RequestHints) {
    SingleLine(h.latitude) && SingleLine(h.longitude) && SingleLine(h.city) && SingleLine(h.country)
  }

  /** The media type `updateDocumentPrompt` names for an artifact kind. */
  function MediaType(kind: string): string {
    if kind == "code" then "code snippet"
    else if kind == "sheet" then "spreadsheet"
    else "document"
  }

  /**
   * Two kinds get the same media type exactly when they are the same kind
   * or neither is "code" nor "sheet"; every other kind is a "document".
   */
  lemma MediaTypeClasses(k1: string, k2: string)
    ensures MediaType(k1) == MediaType(k2) <==>
              k1 == k2 || (k1 != "code" && k1 != "sheet" && k2 != "code" && k2 != "sheet")
    ensures k1 != "code" && k1 != "sheet" ==> MediaType(k1) == "document"
  {
    assert "code snippet" != "spreadsheet" && "code snippet" != "document" && "spreadsheet" != "document" by {
      assert "code snippet"[0] != "spreadsheet"[0] && "code snippet"[0] != "document"[0];
      assert "spreadsheet"[0] != "document"[0];
    }
  }

  /** The first line of the update prompt: what to improve, named by its media type. */
  function Instruction(kind: string): string {
    "Improve the following contents of the " + MediaType(kind) + " based on the given prompt."
  }

  /** `updateDocumentPrompt(currentContent, type)`; a null content renders as "null". */
  function UpdateDocumentPrompt(currentContent: Option<string>, kind: string): string {
    Instruction(kind) + "\n\n" + currentContent.GetOr("null")
  }

  /**
   * The update prompt is the instruction, a blank line, and then the
   * current content verbatim; the instruction names the media type after a
   * fixed lead-in.
   */
  lemma UpdateDocumentPromptShape(currentContent: Option<string>, kind: string)
    ensures var head := Instruction(kind);
            var r := UpdateDocumentPrompt(currentContent, kind);
            && StartsWith(r, head + "\n\n")
            && r[|head| + 2..] == currentContent.GetOr("null")
    ensures var lead := "Improve the following contents of the ";
            var m := MediaType(kind);
            |lead| + |m| <= |Instruction(kind)| && Instruction(kind)[|lead|..|lead| + |m|] == m
  {
    var head := Instruction(kind);
    var r := UpdateDocumentPrompt(currentContent, kind);
    assert r == (head + "\n\n") + currentContent.GetOr("null");
    var lead := "Improve the following contents of the ";
    var m := MediaType(kind);
    assert head == lead + m + " based on the given prompt.";
  }
}
