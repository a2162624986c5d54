/**
 * The part of the BSON document model that the index-specification builder
 * relies on: ordered documents of named, typed elements. Byte layout is not
 * modelled; a document is the sequence of its elements in insertion order.
 */
module Bson {

  /** The 32-bit signed integer of C++ `int` and of the BSON int32 type. */
  newtype int32 = x: int | -0x8000_0000 <= x < 0x8000_0000

  /** A BSON double, kept as its IEEE 754 bit pattern: no floating-point arithmetic is modelled. */
  datatype Double = Double(bits: bv64)

  /**
   * The element values the builder writes or passes through. The kinds the
   * named setters write are spelled out; every other BSON kind (int64, array,
   * date, null, regular expression, ...) is `Other`, its type byte and its
   * encoded payload, carried verbatim.
   */
  datatype Value =
    | Int32(i: int32)
    | Bool(b: bool)
    | Str(s: string)
    | Float64(d: Double)
    | Object(fields: seq<Element>)
    | Other(typeTag: bv8, payload: seq<bv8>)

  /** One named element of a document. */
  datatype Element = Element(field: string, value: Value)

  /** A document: its elements in the order they were appended. */
  type Document = seq<Element>

  /** `hasField`: some element of `d` is named `f`. */
  predicate HasField(d: Document, f: string)
  {
    exists i :: 0 <= i < |d| && d[i].field == f
  }

  /** No field name occurs twice in `d`. */
  predicate UniqueFields(d: Document)
  {
    forall i, j :: 0 <= i < j < |d| ==> d[i].field != d[j].field
  }

}
