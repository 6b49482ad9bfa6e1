/** The run settings gathered when a batch starts: how a book is chosen and
    the configured ranges for the randomizer. */
module Config {
  import opened Randomizer

  /** The four book-selection modes offered by the form. */
  datatype BookMode = Recommended | Indicated | Search | DirectSlug

  /** The mode's form value, which also appears in error messages. */
  function ModeName(m: BookMode): string {
    match m
    case Recommended => "recomendados"
    case Indicated => "indicados"
    case Search => "pesquisa"
    case DirectSlug => "slug"
  }

  /** `settings`: the mode, the trimmed slug (empty unless the mode is the
      direct slug), the trimmed search term (empty unless the mode is search)
      and the ranges. */
  datatype Settings = Settings(mode: BookMode, slug: string, searchTerm: string, ranges: Ranges)
}
