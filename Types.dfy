/** Records of the archive: the asset, its versions and the signed-in user.
    One datatype covers both copies of the record type; the root copy's assets
    simply leave the later optional fields (tags, author, highlight, versions) absent. */
module Types {

  /** An optional value: JavaScript's `undefined` / `null` is `None`. */
  datatype Option<+T> = None | Some(value: T)

  /** The closed set of categories an asset can carry. */
  datatype Category = Personal | Object | Environment | Art

  /** One point in an asset's evolution, as authored (dates ascending).
      The source field `label` is `caption` here: `label` is a Dafny keyword. */
  datatype AssetVersion = AssetVersion(date: string, modelUrl: string, caption: string)

  datatype Author = Author(name: string, avatar: string)

  /** An archived object. Optional fields of the source record are `Option`s. */
  datatype Asset = Asset(
    id: string,
    title: string,
    thumbnail: string,
    modelUrl: Option<string>,
    date: string,
    category: Category,
    tags: Option<seq<string>>,
    author: Option<Author>,
    description: Option<string>,
    polyCount: string,
    fileSize: string,
    aiInsights: Option<string>,
    isHighlighted: Option<bool>,
    versions: Option<seq<AssetVersion>>
  )

  datatype User = User(name: string, email: string, avatar: string, isLoggedIn: bool)

  /** JavaScript truthiness of an optional string: `undefined` and `''` are falsy. */
  predicate Truthy(s: Option<string>)
  {
    s.Some? && s.value != ""
  }
}
