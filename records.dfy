/** The JSONL records that flow between the retrieval, rerank and answer
    stages. Scores are exact reals; the floating-point values the encoders
    produce are not modelled. */
module Records {

  /** One retrieved passage: its 1-based rank, similarity score, corpus id
      and text. */
  datatype Hit = Hit(rank: int, score: real, docId: string, text: string)

  /** One line of the retrieval output: the question, the (expanded) query
      that was searched, and the ranked hits. */
  datatype RetrievalRecord = RetrievalRecord(questionId: string, query: string, hits: seq<Hit>)

  /** A JSON document on one line, as far as the pipeline looks at it: an
      object (its string-valued fields) or any other JSON value. */
  datatype Json = Object(fields: map<string, string>) | NonObject

  /** One line of a JSON Lines file: parsed, or not valid JSON. */
  datatype Line = Parsed(value: Json) | Unparseable
}
