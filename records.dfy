/** Post records: the dictionaries the pipeline passes around, keyed by field name. */
module Records {
  import opened Wrappers
  import opened Dates

  /** A field value: a string, a list of strings, or any other JSON value, of which
      only its truthiness matters. */
  datatype Value = Str(s: string) | StrList(items: seq<string>) | Other(truthy: bool)

  type Record = map<string, Value>

  /** Python truthiness of a field value. */
  predicate Truthy(v: Value) {
    match v
    case Str(s) => s != []
    case StrList(items) => items != []
    case Other(t) => t
  }

  /** `p.get(key, '')` when the value is a string, else the empty text. */
  function TextField(p: Record, key: string): string {
    if key in p && p[key].Str? then p[key].s else ""
  }

  /** `extract_date_str_as_dt(p.get('published_at', ''))`. A value that is not a string
      makes the parse raise inside the guarded block, so it has no date either. */
  function PublishedDate(p: Record, iso: IsoParser): Option<int> {
    ExtractDate(TextField(p, "published_at"), iso)
  }

  /** A record without a `published_at` string has no date. */
  lemma UndatedWithoutField(p: Record, iso: IsoParser)
    requires "published_at" !in p || !p["published_at"].Str?
    ensures PublishedDate(p, iso) == None
  {
  }
}
