/**
 * The values the theme probe works on: what the store's REST API returns,
 * and what `JSON.parse` gives for a product template and for a section's
 * schema body, reduced to the members the probe reads.
 */
module ThemeData {
  import opened Wrappers

  /** A theme summary from `GET themes`. */
  datatype Theme = Theme(id: nat, name: string, role: string)

  /** An entry of a theme's asset listing, `GET themes/<id>/assets`. */
  datatype AssetFile = AssetFile(key: string)

  /** One asset read with `asset[key]`: its key and its text `value`. */
  datatype Asset = Asset(key: string, value: string)

  /** A product node of the published-product query. */
  datatype Product = Product(id: string, title: string, handle: string)

  /** A JavaScript value where the probe only compares it or converts it to a string. */
  datatype Scalar = Undefined | Null | Str(text: string)

  /** `String(v)`, as a template literal converts `v`. */
  function ScalarText(v: Scalar): string {
    match v
    case Undefined => "undefined"
    case Null => "null"
    case Str(t) => t
  }

  /**
   * A parsed template document. `sections` is None when reading
   * `json.sections.main` throws: the document is `null`, or its `sections`
   * member is missing or `null`.
   */
  datatype TemplateDoc = TemplateDoc(sections: Option<SectionsDoc>)

  datatype SectionsDoc = SectionsDoc(main: MainSection)

  /** The `sections.main` member: a value that is not an object, or an object with a `type` member. */
  datatype MainSection = MainValue(value: Scalar) | MainObject(sectionType: Scalar)

  /**
   * `json.sections.main && json.sections.main.type`, converted to a string:
   * a falsy `main` is the value itself; a non-empty string has no `type`.
   */
  function MainTypeText(m: MainSection): string {
    match m
    case MainValue(v) =>
      (match v
       case Str(t) => if t == "" then "" else "undefined"
       case _ => ScalarText(v))
    case MainObject(t) => ScalarText(t)
  }

  /**
   * `main && main.type` in a template string: a falsy `main` (`undefined`,
   * `null`, `""`) gives its own text, a non-empty string has no `type`, and
   * an object gives its `type` as text.
   */
  lemma MainTypeTextCases(t: string, v: Scalar)
    ensures MainTypeText(MainValue(Undefined)) == "undefined"
    ensures MainTypeText(MainValue(Null)) == "null"
    ensures MainTypeText(MainValue(Str(""))) == ""
    ensures t != "" ==> MainTypeText(MainValue(Str(t))) == "undefined"
    ensures MainTypeText(MainObject(v)) == ScalarText(v)
    ensures MainTypeText(MainObject(Undefined)) == "undefined"
  {
  }

  /** A parsed schema body; `blocks` is None when the value has no truthy `blocks` member. */
  datatype SchemaDoc = SchemaDoc(blocks: Option<seq<Block>>)

  /** An element of `blocks`: `null`, on which reading `type` throws, or a value with a `type`. */
  datatype Block = NullBlock | BlockObject(blockType: Scalar)
}
