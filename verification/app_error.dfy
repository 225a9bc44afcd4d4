/** The application's error type (`crate::error::Error`). Its definition is
    not part of this model; no path through the decoders or the request
    validation constructs one, so a single opaque case stands for all of it. */
module AppError {

  datatype Error = Error(reason: string)
}
