/** Stored values: wookie::document (include/wookie/document.hpp) and wookie::index_data
    (include/wookie/index_data.hpp). Time stamps are points on one time line. */
module Documents {
  datatype Document = Document(ts: int, key: string, data: string)

  datatype IndexData = IndexData(ts: int, key: string, pos: seq<int>)

  /** A packed value as the storage keeps it. */
  datatype Packed = PackedIndex(index: IndexData) | PackedDocument(doc: Document)

  /** dnet_time_before. */
  predicate Before(t: int, u: int) { t < u }
}
