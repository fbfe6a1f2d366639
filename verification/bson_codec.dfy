/**
 * The UUID codec registered with the MongoDB driver
 * (uuidEncodeValue / uuidDecodeValue in repository/mongoRepository.go):
 * a UUID travels as a BSON binary value of subtype 0x04, the "UUID" entry of
 * the binary-subtype table of the BSON 1.1 specification.
 */
module BsonCodec {
  import opened Results
  import opened Uuid

  /** BSON 1.1 element types other than binary, undefined and null. */
  datatype BsonType =
    | Double | String | EmbeddedDocument | Array | ObjectId | Boolean | DateTime
    | Regex | DbPointer | JavaScript | Symbol | CodeWithScope | Int32 | Timestamp
    | Int64 | Decimal128 | MinKey | MaxKey

  /** A BSON value as the value reader presents it. */
  datatype BsonValue =
    | Binary(subtype: bv8, data: seq<bv8>)
    | Null
    | Undefined
    | Other(kind: BsonType)

  const UuidSubtype: bv8 := 0x04

  /** The reflected Go value handed to the encoder. */
  datatype Reflected = UuidValue(u: UUID) | InvalidValue | NonUuidValue

  /** The reflected Go destination handed to the decoder. */
  datatype DecodeTarget = SettableUuid | UnsettableTarget | NonUuidTarget

  datatype CodecError =
    | EncoderError                      // bsoncodec.ValueEncoderError
    | DecoderError                      // bsoncodec.ValueDecoderError
    | UnsupportedSubtype(subtype: bv8)  // "unsupported binary subtype %v for UUID"
    | CannotDecode(kind: BsonType)      // "cannot decode %v into a UUID"
    | BadUuid(cause: UuidError)         // the error of uuid.FromBytes

  /** The encoding of a UUID: its sixteen bytes under subtype 0x04. */
  function EncodeUuid(u: UUID): BsonValue {
    Binary(UuidSubtype, u)
  }

  /** uuidEncodeValue: only a valid UUID value is written. */
  function EncodeValue(val: Reflected): (r: Result<BsonValue, CodecError>)
    ensures r.Success? <==> val.UuidValue?
    ensures r.Success? ==> r.value.Binary? && r.value.subtype == 0x04 && r.value.data == val.u
    ensures r.Failure? ==> r.error == EncoderError
  {
    match val
    case UuidValue(u) => Success(EncodeUuid(u))
    case _ => Failure(EncoderError)
  }

  /**
   * uuidDecodeValue: a binary value must carry subtype 0x04; null and
   * undefined leave the payload empty; every other type is refused; and the
   * payload must then be accepted by uuid.FromBytes.
   */
  function DecodeValue(target: DecodeTarget, v: BsonValue): (r: Result<UUID, CodecError>)
    ensures r.Success? <==> target.SettableUuid? && v.Binary? && v.subtype == UuidSubtype && |v.data| == 16
    ensures r.Success? ==> r.value == v.data
    ensures !target.SettableUuid? ==> r == Failure(DecoderError)
    ensures target.SettableUuid? && v.Binary? && v.subtype != UuidSubtype ==> r == Failure(UnsupportedSubtype(v.subtype))
    ensures target.SettableUuid? && v.Other? ==> r == Failure(CannotDecode(v.kind))
    ensures target.SettableUuid? && (v.Null? || v.Undefined?) ==> r == Failure(BadUuid(InvalidLength(0)))
  {
    if !target.SettableUuid? then
      Failure(DecoderError)
    else
      var payload: Result<seq<bv8>, CodecError> :=
        match v
        case Binary(subtype, data) =>
          if subtype != UuidSubtype then Failure(UnsupportedSubtype(subtype)) else Success(data)
        case Null => Success([])
        case Undefined => Success([])
        case Other(kind) => Failure(CannotDecode(kind));
      match payload
      case Failure(e) => Failure(e)
      case Success(data) =>
        match FromBytes(data)
        case Success(u) => Success(u)
        case Failure(e) => Failure(BadUuid(e))
  }

  /** Decoding the encoding of a UUID gives the UUID back. */
  lemma RoundTrip(u: UUID)
    ensures EncodeValue(UuidValue(u)) == Success(EncodeUuid(u))
    ensures DecodeValue(SettableUuid, EncodeUuid(u)) == Success(u)
  {
  }

  /** The only BSON value that decodes to `u` is the encoding of `u`. */
  lemma DecodeOnlyFromEncoding(v: BsonValue, u: UUID)
    ensures DecodeValue(SettableUuid, v) == Success(u) <==> v == EncodeUuid(u)
  {
  }

  /** Distinct UUIDs have distinct encodings. */
  lemma EncodingInjective(u1: UUID, u2: UUID)
    ensures EncodeUuid(u1) == EncodeUuid(u2) ==> u1 == u2
  {
  }
}
