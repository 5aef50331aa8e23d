/** The error kinds the core raises (src/errors.rs), plus the errors of the
    collaborators it propagates with `?`. */
module Errors {

  datatype Error =
    | TagNotFound(tag: string)          // Apologize::TagNotFound
    | AnnotationNotFound(id: string)    // Apologize::AnnotationNotFound
    | Deserialize(key: string)          // bincode could not decode a stored record
    | Remote                            // a failed call to the Hypothesis API
    | UrlParse(uri: string)             // url::Url::parse rejected the annotation's uri
}
