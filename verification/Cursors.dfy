/** Opaque pagination cursors. The text encodings are parameters with stated laws. */
module Cursors {
  import opened Wrappers
  import opened Text

  type Time = int

  /** base58 and RFC 3339, as pairs of functions. */
  datatype Codecs = Codecs(
    toBase58: string -> string,
    fromBase58: string -> Option<string>,
    toRfc3339: Time -> string,
    fromRfc3339: string -> Option<Time>)

  /** Decoding undoes encoding, and a timestamp contains no bar. */
  ghost predicate Lawful(c: Codecs) {
    && (forall s :: c.fromBase58(c.toBase58(s)) == Some(s))
    && (forall t :: c.fromRfc3339(c.toRfc3339(t)) == Some(t) && '|' !in c.toRfc3339(t))
  }

  datatype DecodedCursor = DecodedCursor(timestamp: Time, bareId: string)

  datatype CursorError = InvalidCursor

  function Encode(c: Codecs, timestamp: Time, bareId: string): string {
    c.toBase58(c.toRfc3339(timestamp) + "|" + bareId)
  }

  function Decode(c: Codecs, raw: string, valid: string -> bool): Result<DecodedCursor, CursorError> {
    match c.fromBase58(raw)
    case None => Err(InvalidCursor)
    case Some(text) =>
      match SplitOnce(text, '|')
      case None => Err(InvalidCursor)
      case Some((ts, id)) =>
        match c.fromRfc3339(ts)
        case None => Err(InvalidCursor)
        case Some(t) => if valid(id) then Ok(DecodedCursor(t, id)) else Err(InvalidCursor)
  }

  /** A cursor the server issued decodes to what went in, whatever characters the id
      has, and is refused exactly when the id belongs to another family. */
  lemma DecodeUndoesEncode(c: Codecs, timestamp: Time, bareId: string, valid: string -> bool)
    requires Lawful(c)
    ensures Decode(c, Encode(c, timestamp, bareId), valid) ==
            if valid(bareId) then Ok(DecodedCursor(timestamp, bareId)) else Err(InvalidCursor)
  {
    assert c.fromBase58(Encode(c, timestamp, bareId)) == Some(c.toRfc3339(timestamp) + "|" + bareId);
    SplitOnceAtFirst(c.toRfc3339(timestamp), bareId, '|');
    assert c.toRfc3339(timestamp) + ['|'] + bareId == c.toRfc3339(timestamp) + "|" + bareId;
  }

  /** Two issued cursors are equal only for the same position. */
  lemma EncodeIsInjective(c: Codecs, t: Time, id: string, u: Time, other: string)
    requires Lawful(c) && Encode(c, t, id) == Encode(c, u, other)
    ensures t == u && id == other
  {
    DecodeUndoesEncode(c, t, id, _ => true);
    DecodeUndoesEncode(c, u, other, _ => true);
  }
}
