/** Outcomes shared by every module: an optional value, the pipeline's error
    cases and a result that carries either a value or one of those errors. */
module Outcomes {

  datatype Option<T> = None | Some(value: T)

  /** The failures the insight pipeline can end in. Each stands for a Python
      exception raised (or propagated) by the modelled code. */
  datatype Error =
    | UnsupportedFormat(ext: string)   // ValueError for an extension outside the known families
    | FileNotFound(path: string)       // FileNotFoundError from opening a media file
    | ReadFailed(path: string)         // a reader error (pandas, or text that does not decode), re-raised
    | InvalidPrompt                    // ValueError: the prompt is neither a string nor a table
    | ParseFailed(raw: string)         // ValueError: the model reply is not JSON after recovery
    | InvalidEntry(field: string)      // pydantic ValidationError (or TypeError) building an Insight
    | InsightsNotFound(fileId: string) // no insights were ever persisted for the id
    | RecordCorrupt(fileId: string)    // a persisted record fails re-validation on load

  datatype Result<T> = Ok(value: T) | Err(error: Error)
}
