/** The FAQ corpus as `_load_data` reads it, and the startup errors that
    abort `ChatbotCore.__init__`. */
module Corpus {
  import opened Wrappers

  /** One CSV row. */
  datatype FaqEntry = FaqEntry(question: string, answer: string) {
    /** The derived `text` column the embeddings are computed from: the
        question, one space, the answer. */
    function Text(): (t: string)
      ensures |t| == |question| + 1 + |answer|
      ensures t[..|question|] == question && t[|question|] == ' ' && t[|question| + 1..] == answer
    {
      question + " " + answer
    }
  }

  /** What `pd.read_csv(csv_path)` meets: no file, a file it cannot parse,
      or a table with its header's column names and its rows. */
  datatype CsvFile = NoFile | Unparsable | Table(columns: set<string>, rows: seq<FaqEntry>)

  /** The exceptions that escape `__init__`. */
  datatype InitError =
    | CsvNotFound        // FileNotFoundError from `_load_data`
    | CsvUnreadable      // the parser's own error
    | MissingColumns     // ValueError: no 'Question' or no 'Answer' column
    | DataNotLoaded      // no data frame when embeddings are computed
    | ModelNotLoaded     // no model when embeddings are computed
    | EmptyEmbeddings    // ValueError from `_build_faiss_index`

  /** `_load_data`: the rows, in file order, or the reason there are none. */
  function LoadCorpus(csv: CsvFile): (r: Result<seq<FaqEntry>, InitError>)
    ensures r == Err(CsvNotFound) <==> csv.NoFile?
    ensures r == Err(MissingColumns) <==>
              csv.Table? && !("Question" in csv.columns && "Answer" in csv.columns)
    ensures r.Ok? <==> csv.Table? && "Question" in csv.columns && "Answer" in csv.columns
    ensures r.Ok? ==> r.value == csv.rows
  {
    match csv
    case NoFile => Err(CsvNotFound)
    case Unparsable => Err(CsvUnreadable)
    case Table(columns, rows) =>
      if "Question" !in columns || "Answer" !in columns then Err(MissingColumns)
      else Ok(rows)
  }

  /** `df['text'].tolist()`. */
  function Texts(rows: seq<FaqEntry>): (ts: seq<string>)
    ensures |ts| == |rows|
    ensures forall i :: 0 <= i < |rows| ==> ts[i] == rows[i].Text()
  {
    seq(|rows|, i requires 0 <= i < |rows| => rows[i].Text())
  }
}
