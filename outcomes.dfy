/** Option, Result and the errors that abort a download run. */
module Outcomes {

  datatype Option<+T> = None | Some(value: T)

  /** The exceptions `audioset_dl` lets escape before any fetch is submitted. */
  datatype Error =
    | LabelNotUnique              // `.item()` on zero or several ontology matches (ValueError)
    | NoClassName                 // `class_name[0]` on an empty tuple (IndexError)
    | NoLabelColumn               // every partition excluded: the empty frame has no `positive_labels` (AttributeError)
    | NegativeSampleSize          // `sample(n)` with n < 0 (ValueError)
    | SampleLargerThanPopulation  // `sample(n)` with n above the row count, without replacement (ValueError)

  datatype Result<+T> = Ok(value: T) | Err(error: Error)
}
