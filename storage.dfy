/** What both ingest scripts put into a Cloud Storage bucket. */
module Storage {

  newtype byte = b: int | 0 <= b < 256

  type Bytes = seq<byte>

  /** An object in a bucket: its bytes, the content type it was uploaded with,
      and its custom metadata (`blob.metadata`). */
  datatype Blob = Blob(data: Bytes, contentType: string, metadata: map<string, string>)
}
