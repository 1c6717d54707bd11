/** Values shared by the whole ingestion path: Python's `None`, string
    truthiness, and the article dictionaries the news provider returns. */
module Articles {

  datatype Option<T> = None | Some(value: T)

  /** A provider article as a dictionary: `article.get(key)` yields `None`
      for any key that is missing. */
  datatype Article = Article(
    url: Option<string>,
    title: Option<string>,
    description: Option<string>,
    content: Option<string>,
    publishedAt: Option<string>)

  /** Python truthiness of an optional string: `None` and `""` are falsy. */
  predicate Truthy(s: Option<string>)
  {
    s.Some? && s.value != ""
  }

  /** `s or default` */
  function OrElse(s: Option<string>, default: string): string
  {
    if Truthy(s) then s.value else default
  }
}
