/** The bilingual-post service (services/geminiService.ts) as seen by the
    forms: a call that either yields the four translated fields or fails.
    The remote model itself is outside this model; the forms take the call
    as a function parameter. */
module Translation {
  import opened Types

  /** The four fields the service returns. */
  datatype Bilingual = Bilingual(titleKR: string, titleCN: string, descKR: string, descCN: string)

  /** The outcome of `generateBilingualPost`: the fields, or a thrown error
      (no response, a network failure). */
  datatype Outcome = Translated(fields: Bilingual) | Failed

  /** The service's own fallback when the response is not valid JSON: the
      original text in the writer's language, empty strings in the other. */
  function Fallback(title: string, description: string, from: Language): Bilingual {
    Bilingual(
      if from == KR then title else "",
      if from == CN then title else "",
      if from == KR then description else "",
      if from == CN then description else "")
  }

  /** Nothing the writer typed is lost or altered by the fallback: the
      Korean and Chinese fields put together give back the title and the
      description, and the other language's fields are empty. */
  lemma FallbackKeepsWriterText(title: string, description: string, from: Language)
    ensures var b := Fallback(title, description, from);
            && b.titleKR + b.titleCN == title
            && b.descKR + b.descCN == description
            && (from == KR ==> b.titleCN == "" && b.descCN == "")
            && (from == CN ==> b.titleKR == "" && b.descKR == "")
  {
    var b := Fallback(title, description, from);
    if from == KR {
      assert b.titleKR + "" == title && b.descKR + "" == description;
    } else {
      assert "" + b.titleCN == title && "" + b.descCN == description;
    }
  }
}
