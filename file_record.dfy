/**
 * An entry of the user's file list as the front-end holds it after the
 * backend's answer has passed through the BigInt conversion.
 * An absent `name` or `contentType` is modelled as the empty string; where
 * the source reads one without a `||` default, the two differ (an absent name
 * makes `split` throw, and is downloaded as "undefined").
 */
module FileRecord {

  datatype Metadata = Metadata(name: string, contentType: string)

  datatype FileEntry = FileEntry(id: int, metadata: Metadata)
}
