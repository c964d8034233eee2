/** Texts are bytes; an error says why one was refused, or could not be written. */
module EncodingTypes {

  import opened Words

  type Text = seq<Byte>

  datatype Error =
    | BufferTooSmall
    | Length(characters: nat)
    | Character(at: nat)
    | Padding
    | TrailingBits
    | MissingBegin
    | MissingEnd
    | LabelMismatch
    | Label
    | LineLength(characters: nat, wrap: nat)
    | EmptyPayload
    | TrailingData
}
