/** The error values and answers of the codec. */
module DeflateErrors {

  datatype Error = Output | Input

  /** Something read from a stream, and where the stream goes on. */
  datatype Taken<+T> = Taken(item: T, end: nat)
}
