/** The browser's `File` value, reduced to the attributes the uploader reads. */
module Files {

  newtype byte = x: int | 0 <= x < 256

  /** A file as the browser hands it over: its name, its declared media type
      (`File.type`), its modification time in milliseconds and its contents. */
  datatype File = File(name: string, mediaType: string, lastModified: int, data: seq<byte>)
}
