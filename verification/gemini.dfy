/** The wrapper around the remote classifier: the argument checks, the batch
    limit and the way a failed or empty answer is turned into no results.
    The remote model itself is a parameter. */
module Gemini {
  import opened Types

  /** At most this many names are sent in one request. */
  const MaxBatch := 500

  const MissingKeyMessage := "API key is required"

  /** What the remote model does with a batch of names: answers with parsed
      results, answers with no text, or throws. */
  datatype Reply = Answered(results: seq<AIAnalysisResult>) | NoText | Failed

  /** The remote model, as a function of the batch it is sent. */
  type Classifier = seq<string> -> Reply

  /** `filenames.slice(0, 500)`. */
  function Batch(filenames: seq<string>): (b: seq<string>)
    ensures |b| <= MaxBatch && b <= filenames
    ensures |b| == if |filenames| <= MaxBatch then |filenames| else MaxBatch
  {
    if |filenames| <= MaxBatch then filenames else filenames[..MaxBatch]
  }

  /** `analyzeFiles`: an empty key throws, an empty list yields no results
      without a request, and otherwise the first batch is sent; a reply
      without text or a thrown request yields no results. */
  function AnalyzeFiles(model: Classifier, filenames: seq<string>, apiKey: string): Result<seq<AIAnalysisResult>, string> {
    if apiKey == "" then Err(MissingKeyMessage)
    else if filenames == [] then Ok([])
    else
      match model(Batch(filenames))
      case Answered(results) => Ok(results)
      case NoText => Ok([])
      case Failed => Ok([])
  }

  /** Only a missing key is an error; any results come from the model's answer
      to the first batch of a non-empty list, and a model that fails or says
      nothing yields none. */
  lemma AnalyzeFilesSpec(model: Classifier, filenames: seq<string>, apiKey: string)
    ensures AnalyzeFiles(model, filenames, apiKey).Err? <==> apiKey == ""
    ensures apiKey != "" && filenames == [] ==> AnalyzeFiles(model, filenames, apiKey) == Ok([])
    ensures apiKey != "" && filenames != [] && !model(Batch(filenames)).Answered? ==>
      AnalyzeFiles(model, filenames, apiKey) == Ok([])
    ensures AnalyzeFiles(model, filenames, apiKey).Ok? && AnalyzeFiles(model, filenames, apiKey).value != [] ==>
      filenames != [] && model(Batch(filenames)) == Answered(AnalyzeFiles(model, filenames, apiKey).value)
  {
  }

  /** Names past the first batch are never looked at: two lists that agree on
      their first `MaxBatch` names get the same answer. */
  lemma OnlyFirstBatchMatters(model: Classifier, a: seq<string>, b: seq<string>, apiKey: string)
    requires |a| >= MaxBatch && |b| >= MaxBatch && a[..MaxBatch] == b[..MaxBatch]
    ensures AnalyzeFiles(model, a, apiKey) == AnalyzeFiles(model, b, apiKey)
  {
    assert a[..|a|] == a && b[..|b|] == b;
    assert Batch(a) == a[..MaxBatch] && Batch(b) == b[..MaxBatch];
  }
}
