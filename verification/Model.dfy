/** The shapes every other module shares: canonical field values, record references
    and snapshot digests. */
module Model {

  /** A canonical field value. `Time`, `Number` and `Other` carry the text the program
      renders them to; a whole float and the integer it started as carry the same text. */
  datatype Value =
    | Null
    | Str(s: string)
    | Bool(b: bool)
    | Time(text: string)
    | Number(text: string)
    | Other(text: string)

  type Fields = map<string, Value>

  /** One record on one side of a sync. */
  datatype Ref = Ref(connector: string, kind: string, remoteID: string)

  /** A SHA-256 digest is represented by its preimage, and the empty string that marks a
      side which has never synced by `NoHash`. */
  datatype Hash = NoHash | Sum(preimage: string)

  datatype Side = Left | Right

  function OtherSide(s: Side): Side { if s == Left then Right else Left }

  /** `merge` of the pipeline: overlay `values` on top of `base`. */
  function Merge(base: Fields, values: Fields): Fields { base + values }
}
