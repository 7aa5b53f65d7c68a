/**
 * The payload codec: MessagePack packing followed by Base64 text. The byte
 * format is abstracted; what the cache relies on is that unpacking inverts
 * packing and that text written by someone else may not unpack at all.
 */
module Codec {
  import opened Common
  import opened Responses

  /** A stored string value: either one this codec packed, or foreign text. */
  datatype Payload = Packed(value: Option<Response>) | Foreign(text: string)

  /** PackSingleObject then Convert.ToBase64String; a null value packs too. */
  function Encode(v: Option<Response>): (p: Payload)
    ensures Decode(p) == Ok(v)
  {
    Packed(v)
  }

  /** Convert.FromBase64String then UnpackSingleObject, which throws on foreign text. */
  function Decode(p: Payload): (r: Result<Option<Response>, Fault>)
    ensures r.Err? <==> p.Foreign?
  {
    match p
    case Packed(v) => Ok(v)
    case Foreign(_) => Err(DecodeFailed)
  }
}
