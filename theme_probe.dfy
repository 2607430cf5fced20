/**
 * The handler of `GET /api/store/themes/main`: find the published theme,
 * keep its product template, resolve the template's main section, read that
 * section's schema, look for an `@app` block, and report the two capability
 * flags with a theme-editor preview URL. Every failure on the way ends in
 * the same 500 response.
 *
 * The store's responses are the `Store` value and `JSON.parse` is the pair
 * of functions in `Parsers`, where None stands for a SyntaxError.
 */
module ThemeProbe {
  import opened Wrappers
  import opened ArrayOps
  import opened ThemeData
  import SchemaScanner
  import UriComponent

  /** What the store answers: every remote call of the handler, by its arguments. */
  datatype Store = Store(
    themes: seq<Theme>,                        // GET themes
    assetLists: map<nat, seq<AssetFile>>,      // GET themes/<id>/assets
    assetValues: map<(nat, string), string>,   // GET themes/<id>/assets with asset[key], its `value`
    publishedProducts: seq<Product>)           // products(first: 1, query: "published_status:published")

  datatype Parsers = Parsers(template: string -> Option<TemplateDoc>, schema: string -> Option<SchemaDoc>)

  /** Why the handler threw; the response is the same whichever it is. */
  datatype ProbeError =
    | NoPublishedTheme
    | AssetListUnavailable(themeId: nat)
    | AssetUnavailable(key: string)
    | TemplateNotJson(key: string)
    | TemplateWithoutSections(key: string)
    | SchemaNotFound(key: string)
    | SchemaNotJson(key: string)
    | BlockIsNull(key: string)

  datatype Report = Report(theme: Theme, supportsSe: bool, supportsAppBlocks: bool, editorUrl: string)

  datatype Body = ThemeBody(report: Report) | ErrorBody(error: string)

  datatype Response = Response(status: nat, body: Body)

  const PublishedRole: string := "main"
  const AppBlockTemplates: seq<string> := ["product"]
  const ProductTemplateKey: string := "templates/product.json"
  const AppBlockType: string := "@app"
  const FailureMessage: string := "Failed to fetch theme data"

  function TemplateKey(name: string): string {
    "templates/" + name + ".json"
  }

  function SectionKey(mainType: string): string {
    "sections/" + mainType + ".liquid"
  }

  // ---------------------------------------------------------------------
  // Theme selection

  predicate IsPublished(theme: Theme) {
    theme.role == PublishedRole
  }

  /** `themes.find((theme) => theme.role === 'main')`. */
  function PublishedTheme(themes: seq<Theme>): (r: Option<Theme>)
    ensures r.Some? <==> exists k | 0 <= k < |themes| :: themes[k].role == "main"
    ensures r.Some? ==> exists k | 0 <= k < |themes| && themes[k] == r.value ::
      themes[k].role == "main" && forall j | 0 <= j < k :: themes[j].role != "main"
  {
    Find(IsPublished, themes)
  }

  // ---------------------------------------------------------------------
  // Template filter

  /** `APP_BLOCK_TEMPLATES.some((template) => file.key === `templates/${template}.json`)`. */
  predicate IsAppBlockTemplate(file: AssetFile) {
    Any((name: string) => file.key == TemplateKey(name), AppBlockTemplates)
  }

  lemma IsAppBlockTemplateKey(file: AssetFile)
    ensures IsAppBlockTemplate(file) <==> file.key == ProductTemplateKey
  {
    assert AppBlockTemplates[0] == "product";
    assert TemplateKey("product") == ProductTemplateKey;
  }

  /** `assets.filter(...)`: the product templates among the theme's assets, in listing order. */
  function TemplateFiles(assets: seq<AssetFile>): (r: seq<AssetFile>)
    ensures forall k | 0 <= k < |r| :: r[k].key == ProductTemplateKey
    ensures forall k | 0 <= k < |assets| && assets[k].key == ProductTemplateKey :: assets[k] in r
    ensures IsSubsequence(r, assets)
  {
    forall file: AssetFile ensures IsAppBlockTemplate(file) <==> file.key == ProductTemplateKey {
      IsAppBlockTemplateKey(file);
    }
    FilterIsSubsequence(IsAppBlockTemplate, assets);
    Filter(IsAppBlockTemplate, assets)
  }

  /** The filter keeps each part of the listing in place: order is preserved. */
  lemma TemplateFilesConcat(a: seq<AssetFile>, b: seq<AssetFile>)
    ensures TemplateFiles(a + b) == TemplateFiles(a) + TemplateFiles(b)
  {
    FilterConcat(IsAppBlockTemplate, a, b);
  }

  /** There is a template file exactly when the listing holds `templates/product.json`. */
  lemma TemplateFilesNonEmpty(assets: seq<AssetFile>)
    ensures |TemplateFiles(assets)| > 0 <==> exists k | 0 <= k < |assets| :: assets[k].key == ProductTemplateKey
  {
    var r := TemplateFiles(assets);
    if |r| > 0 {
      assert r[0] in assets;
    }
  }

  // ---------------------------------------------------------------------
  // Remote reads

  function AssetList(store: Store, themeId: nat): (r: Result<seq<AssetFile>, ProbeError>)
    ensures r.Ok? <==> themeId in store.assetLists
    ensures r.Ok? ==> r.value == store.assetLists[themeId]
  {
    if themeId in store.assetLists then Ok(store.assetLists[themeId]) else Err(AssetListUnavailable(themeId))
  }

  function FetchAsset(store: Store, themeId: nat, key: string): (r: Result<Asset, ProbeError>)
    ensures r.Ok? <==> (themeId, key) in store.assetValues
    ensures r.Ok? ==> r.value == Asset(key, store.assetValues[(themeId, key)])
  {
    if (themeId, key) in store.assetValues then Ok(Asset(key, store.assetValues[(themeId, key)]))
    else Err(AssetUnavailable(key))
  }

  /** `Promise.all(templateJSONFiles.map(...))`: the text of every template file. */
  function FetchTemplates(store: Store, themeId: nat, files: seq<AssetFile>): (r: Result<seq<Asset>, ProbeError>)
    ensures r.Ok? <==> forall k | 0 <= k < |files| :: (themeId, files[k].key) in store.assetValues
    ensures r.Ok? ==> |r.value| == |files| && forall k | 0 <= k < |files| ::
      r.value[k] == Asset(files[k].key, store.assetValues[(themeId, files[k].key)])
  {
    MapResult((f: AssetFile) => FetchAsset(store, themeId, f.key), files)
  }

  // ---------------------------------------------------------------------
  // Section resolution

  /** The key the template's main section is looked up under, `sections/${main}.liquid`. */
  function MainSectionKey(parse: string -> Option<TemplateDoc>, template: Asset): (r: Result<string, ProbeError>)
    ensures r.Ok? <==> parse(template.value).Some? && parse(template.value).value.sections.Some?
    ensures parse(template.value).None? ==> r == Err(TemplateNotJson(template.key))
    ensures r.Ok? ==> |r.value| >= 16 && r.value[..9] == "sections/" && r.value[|r.value| - 7..] == ".liquid"
  {
    match parse(template.value)
    case None => Err(TemplateNotJson(template.key))
    case Some(doc) =>
      match doc.sections
      case None => Err(TemplateWithoutSections(template.key))
      case Some(sections) => Ok(SectionKey(MainTypeText(sections.main)))
  }

  /** A template whose `sections.main` is missing is looked up as `sections/undefined.liquid`. */
  lemma MainSectionKeyCases(parse: string -> Option<TemplateDoc>, template: Asset, sectionType: string)
    ensures parse(template.value) == Some(TemplateDoc(Some(SectionsDoc(MainValue(Undefined))))) ==>
      MainSectionKey(parse, template) == Ok("sections/undefined.liquid")
    ensures parse(template.value) == Some(TemplateDoc(Some(SectionsDoc(MainObject(Str(sectionType)))))) ==>
      MainSectionKey(parse, template) == Ok("sections/" + sectionType + ".liquid")
    ensures parse(template.value) == Some(TemplateDoc(Some(SectionsDoc(MainValue(Null))))) ==>
      MainSectionKey(parse, template) == Ok("sections/null.liquid")
    ensures parse(template.value) == Some(TemplateDoc(Some(SectionsDoc(MainValue(Str("")))))) ==>
      MainSectionKey(parse, template) == Ok("sections/.liquid")
    ensures sectionType != "" && parse(template.value) == Some(TemplateDoc(Some(SectionsDoc(MainValue(Str(sectionType)))))) ==>
      MainSectionKey(parse, template) == Ok("sections/undefined.liquid")
    ensures parse(template.value).None? ==> MainSectionKey(parse, template) == Err(TemplateNotJson(template.key))
    ensures parse(template.value) == Some(TemplateDoc(None)) ==> MainSectionKey(parse, template) == Err(TemplateWithoutSections(template.key))
  {
    assert MainTypeText(MainValue(Undefined)) == "undefined";
    assert SectionKey("undefined") == "sections/undefined.liquid";
    assert SectionKey("null") == "sections/null.liquid";
    assert SectionKey("") == "sections/.liquid";
  }

  /** `templateJSONAssetContents.map(...)` up to the key: one key per template, in order. */
  function MainSectionKeys(parse: string -> Option<TemplateDoc>, templates: seq<Asset>): (r: Result<seq<string>, ProbeError>)
    ensures r.Ok? <==> forall k | 0 <= k < |templates| :: MainSectionKey(parse, templates[k]).Ok?
    ensures r.Ok? ==> |r.value| == |templates| && forall k | 0 <= k < |templates| ::
      MainSectionKey(parse, templates[k]) == Ok(r.value[k])
  {
    MapResult((t: Asset) => MainSectionKey(parse, t), templates)
  }

  /** `assets.find((file) => file.key === key)`. */
  function SectionFile(assets: seq<AssetFile>, key: string): (r: Option<AssetFile>)
    ensures r.None? <==> forall k | 0 <= k < |assets| :: assets[k].key != key
    ensures r.Some? ==> r.value.key == key && exists k | 0 <= k < |assets| && assets[k] == r.value ::
      forall j | 0 <= j < k :: assets[j].key != key
  {
    Find((f: AssetFile) => f.key == key, assets)
  }

  /** `.map(... assets.find(...)).filter((value) => value)`: the sections found, in template order. */
  function MainSections(assets: seq<AssetFile>, keys: seq<string>): (r: seq<AssetFile>)
    ensures |r| <= |keys|
    ensures forall k | 0 <= k < |r| :: r[k] in assets
  {
    Somes(Map((key: string) => SectionFile(assets, key), keys))
  }

  /** Each template contributes its section, if there is one, in place. */
  lemma MainSectionsConcat(assets: seq<AssetFile>, a: seq<string>, b: seq<string>)
    ensures MainSections(assets, a + b) == MainSections(assets, a) + MainSections(assets, b)
  {
    var f := (key: string) => SectionFile(assets, key);
    MapConcat(f, a, b);
    SomesConcat(Map(f, a), Map(f, b));
  }

  /** One template: its section is the first asset with its key, or it is dropped. */
  lemma MainSectionsSingle(assets: seq<AssetFile>, key: string)
    ensures MainSections(assets, [key]) == match SectionFile(assets, key) case Some(f) => [f] case None => []
  {
    var m := Map((key: string) => SectionFile(assets, key), [key]);
    assert m == [SectionFile(assets, key)];
    assert m[1..] == [];
  }

  // ---------------------------------------------------------------------
  // The `@app` check

  predicate IsAppBlock(b: Block) {
    b.BlockObject? && b.blockType == Str(AppBlockType)
  }

  /**
   * `schema.blocks.some((b) => b.type === '@app')`, with None where reading
   * `type` of a `null` block throws; `some` stops at the first `@app` block.
   */
  function SomeAppBlock(blocks: seq<Block>): (r: Option<bool>)
    ensures r == Some(true) <==> exists k | 0 <= k < |blocks| && IsAppBlock(blocks[k]) ::
      forall j | 0 <= j < k :: blocks[j].BlockObject?
    ensures r == Some(false) <==> forall k | 0 <= k < |blocks| :: blocks[k].BlockObject? && !IsAppBlock(blocks[k])
  {
    match FindIndex((b: Block) => b.NullBlock? || IsAppBlock(b), blocks)
    case None => Some(false)
    case Some(k) => if blocks[k].NullBlock? then None else Some(true)
  }

  /** `if (schema && schema.blocks) acceptsAppBlock = schema.blocks.some(...)`, for the section `key`. */
  function AcceptsAppBlock(schema: SchemaDoc, key: string): (r: Result<bool, ProbeError>)
    ensures schema.blocks.None? ==> r == Ok(false)
    ensures r == Ok(true) ==> schema.blocks.Some? && exists k | 0 <= k < |schema.blocks.value| :: IsAppBlock(schema.blocks.value[k])
    ensures schema.blocks.Some? && (forall k | 0 <= k < |schema.blocks.value| :: schema.blocks.value[k].BlockObject?) ==>
      r == Ok(exists k | 0 <= k < |schema.blocks.value| :: IsAppBlock(schema.blocks.value[k]))
    ensures r.Err? <==> schema.blocks.Some? && exists k | 0 <= k < |schema.blocks.value| ::
      schema.blocks.value[k].NullBlock? && forall j | 0 <= j < k :: !IsAppBlock(schema.blocks.value[j])
    ensures r.Err? ==> r.error == BlockIsNull(key)
    ensures r.Ok? ==> (r.value <==> schema.blocks.Some? && exists k | 0 <= k < |schema.blocks.value| :: IsAppBlock(schema.blocks.value[k]))
  {
    match schema.blocks
    case None => Ok(false)
    case Some(blocks) =>
      match SomeAppBlock(blocks)
      case None => Err(BlockIsNull(key))
      case Some(b) => Ok(b)
  }

  /** The schema of a section: its text read, its schema body extracted and parsed. */
  function SectionSchema(store: Store, themeId: nat, parsers: Parsers, file: AssetFile): (r: Result<SchemaDoc, ProbeError>)
    ensures r.Ok? ==>
      (themeId, file.key) in store.assetValues && SchemaScanner.HasSchemaBlock(store.assetValues[(themeId, file.key)])
    ensures (themeId, file.key) in store.assetValues && !SchemaScanner.HasSchemaBlock(store.assetValues[(themeId, file.key)]) ==>
      r == Err(SchemaNotFound(file.key))
    ensures r.Ok? <==>
      && (themeId, file.key) in store.assetValues
      && SchemaScanner.ExtractSchema(store.assetValues[(themeId, file.key)]).Some?
      && parsers.schema(SchemaScanner.ExtractSchema(store.assetValues[(themeId, file.key)]).value).Some?
    ensures r.Ok? ==> Some(r.value) == parsers.schema(SchemaScanner.ExtractSchema(store.assetValues[(themeId, file.key)]).value)
  {
    SchemaScanner.ExtractSchemaFound(if (themeId, file.key) in store.assetValues then store.assetValues[(themeId, file.key)] else "");
    var asset :- FetchAsset(store, themeId, file.key);
    var body :- SchemaScanner.ExtractSchema(asset.value).OrFail(SchemaNotFound(file.key));
    parsers.schema(body).OrFail(SchemaNotJson(file.key))
  }

  /** The callback of `templateMainSections.map(async (file) => ...)`: `file` if it accepts app blocks, else null. */
  function SectionVerdict(store: Store, themeId: nat, parsers: Parsers, file: AssetFile): (r: Result<Option<AssetFile>, ProbeError>)
    ensures r.Ok? <==>
      SectionSchema(store, themeId, parsers, file).Ok? && AcceptsAppBlock(SectionSchema(store, themeId, parsers, file).value, file.key).Ok?
    ensures r.Ok? ==> r.value == None || r.value == Some(file)
    ensures r == Ok(Some(file)) <==> r.Ok? && DeclaresAppBlock(store, themeId, parsers, file)
  {
    var schema :- SectionSchema(store, themeId, parsers, file);
    var accepts :- AcceptsAppBlock(schema, file.key);
    Ok(if accepts then Some(file) else None)
  }

  /** The section's schema was read and declares a block of type `@app`. */
  predicate DeclaresAppBlock(store: Store, themeId: nat, parsers: Parsers, file: AssetFile) {
    match SectionSchema(store, themeId, parsers, file)
    case Err(_) => false
    case Ok(schema) =>
      schema.blocks.Some? && exists k | 0 <= k < |schema.blocks.value| :: IsAppBlock(schema.blocks.value[k])
  }

  /** `sectionsWithAppBlock`: the main sections whose schema accepts app blocks. */
  function SectionsWithAppBlock(store: Store, themeId: nat, parsers: Parsers, sections: seq<AssetFile>): (r: Result<seq<AssetFile>, ProbeError>)
    ensures r.Ok? <==> forall k | 0 <= k < |sections| :: SectionVerdict(store, themeId, parsers, sections[k]).Ok?
    ensures r.Ok? ==> r.value == Filter((f: AssetFile) => DeclaresAppBlock(store, themeId, parsers, f), sections)
    ensures r.Ok? ==> IsSubsequence(r.value, sections)
  {
    var verdicts :- MapResult((f: AssetFile) => SectionVerdict(store, themeId, parsers, f), sections);
    KeptAreDeclaring(store, themeId, parsers, sections, verdicts);
    FilterIsSubsequence((f: AssetFile) => DeclaresAppBlock(store, themeId, parsers, f), sections);
    Ok(Somes(verdicts))
  }

  lemma {:induction false} KeptAreDeclaring(store: Store, themeId: nat, parsers: Parsers, sections: seq<AssetFile>, verdicts: seq<Option<AssetFile>>)
    requires |verdicts| == |sections|
    requires forall k | 0 <= k < |sections| :: SectionVerdict(store, themeId, parsers, sections[k]) == Ok(verdicts[k])
    ensures Somes(verdicts) == Filter((f: AssetFile) => DeclaresAppBlock(store, themeId, parsers, f), sections)
  {
    var p := (f: AssetFile) => DeclaresAppBlock(store, themeId, parsers, f);
    if sections != [] {
      KeptAreDeclaring(store, themeId, parsers, sections[1..], verdicts[1..]);
      var f := sections[0];
      var schema := SectionSchema(store, themeId, parsers, f).value;
      assert verdicts[0] == (if p(f) then Some(f) else None);
    }
  }

  /** A main section whose text has no schema block makes the whole probe fail. */
  lemma SectionWithoutSchemaFails(store: Store, themeId: nat, parsers: Parsers, sections: seq<AssetFile>, k: nat)
    requires k < |sections| && (themeId, sections[k].key) in store.assetValues
    requires !SchemaScanner.HasSchemaBlock(store.assetValues[(themeId, sections[k].key)])
    ensures SectionsWithAppBlock(store, themeId, parsers, sections).Err?
  {
    SchemaScanner.ExtractSchemaFound(store.assetValues[(themeId, sections[k].key)]);
    assert SectionVerdict(store, themeId, parsers, sections[k]).Err?;
  }

  // ---------------------------------------------------------------------
  // Editor URL

  /** `product?.handle` in a template string. */
  function HandleText(product: Option<Product>): string {
    match product
    case None => "undefined"
    case Some(p) => p.handle
  }

  /** The first published product, `getNodesFromConnections(response.data.products)?.[0]`. */
  function FirstProduct(products: seq<Product>): (r: Option<Product>)
    ensures r.Some? <==> |products| > 0
    ensures r.Some? ==> r.value == products[0]
  {
    if |products| > 0 then Some(products[0]) else None
  }

  /** `https://${shop}/admin/themes/${publishedTheme.id}/editor?previewPath=`. */
  function EditorPrefix(shop: string, themeId: nat): (r: string)
    ensures |r| == |shop| + |UriComponent.DecimalText(themeId)| + 42
    ensures r[..8] == "https://" && r[8..8 + |shop|] == shop
    ensures r[8 + |shop|..22 + |shop|] == "/admin/themes/"
    ensures r[22 + |shop|..|r| - 20] == UriComponent.DecimalText(themeId)
    ensures r[|r| - 20..] == "/editor?previewPath="
  {
    "https://" + shop + "/admin/themes/" + UriComponent.DecimalText(themeId) + "/editor?previewPath="
  }

  /** `editorUrl`: the prefix, then the encoded preview path, which holds no `/`, `?` or `&`. */
  function EditorUrl(shop: string, themeId: nat, product: Option<Product>): (url: string)
    ensures |EditorPrefix(shop, themeId)| <= |url| && url[..|EditorPrefix(shop, themeId)|] == EditorPrefix(shop, themeId)
    ensures forall k | |EditorPrefix(shop, themeId)| <= k < |url| :: url[k] != '/' && url[k] != '?' && url[k] != '&'
  {
    var prefix := EditorPrefix(shop, themeId);
    var path := UriComponent.Encode("/products/" + HandleText(product));
    TextAfterPrefix(prefix, path);
    UriComponent.EncodeHasNoDelimiters("/products/" + HandleText(product));
    prefix + path
  }

  /** The preview path names the first product's handle, or `undefined` when there is no product. */
  lemma EditorUrlProductPath(shop: string, themeId: nat, products: seq<Product>)
    ensures var prefix := EditorPrefix(shop, themeId);
      var url := EditorUrl(shop, themeId, FirstProduct(products));
      UriComponent.Decode(url[|prefix|..]) == Some("/products/" + if products == [] then "undefined" else products[0].handle)
  {
    EditorUrlParts(shop, themeId, FirstProduct(products));
  }

  /**
   * The preview path sits after the prefix, holds no `/`, `?` or `&`, and
   * decodes back to `/products/<handle>`; the theme id reads back as itself.
   */
  lemma EditorUrlParts(shop: string, themeId: nat, product: Option<Product>)
    ensures var url := EditorUrl(shop, themeId, product);
      var prefix := EditorPrefix(shop, themeId);
      && url[..|prefix|] == prefix
      && (forall k | |prefix| <= k < |url| :: url[k] != '/' && url[k] != '?' && url[k] != '&')
      && UriComponent.Decode(url[|prefix|..]) == Some("/products/" + HandleText(product))
    ensures UriComponent.DecimalValue(UriComponent.DecimalText(themeId)) == themeId
  {
    var prefix := EditorPrefix(shop, themeId);
    var path := UriComponent.Encode("/products/" + HandleText(product));
    TextAfterPrefix(prefix, path);
    UriComponent.EncodeHasNoDelimiters("/products/" + HandleText(product));
    UriComponent.DecodeEncode("/products/" + HandleText(product));
    UriComponent.DecimalRoundTrip(themeId);
  }

  lemma TextAfterPrefix(prefix: string, text: string)
    ensures (prefix + text)[..|prefix|] == prefix && (prefix + text)[|prefix|..] == text
    ensures forall k | |prefix| <= k < |prefix + text| :: (prefix + text)[k] == text[k - |prefix|]
  {
  }

  // ---------------------------------------------------------------------
  // The handler

  /** The body of the `try` block, up to the value it sends. */
  function ProbeTheme(shop: string, store: Store, parsers: Parsers): (r: Result<Report, ProbeError>)
    ensures PublishedTheme(store.themes).None? ==> r == Err(NoPublishedTheme)
    ensures r.Ok? ==> PublishedTheme(store.themes) == Some(r.value.theme) && r.value.theme.id in store.assetLists
    ensures r.Ok? ==> (r.value.supportsAppBlocks ==> r.value.supportsSe)
    ensures r.Ok? ==> r.value.editorUrl == EditorUrl(shop, r.value.theme.id, FirstProduct(store.publishedProducts))
  {
    var theme :- PublishedTheme(store.themes).OrFail(NoPublishedTheme);
    var assets :- AssetList(store, theme.id);
    var templateFiles := TemplateFiles(assets);
    var templates :- FetchTemplates(store, theme.id, templateFiles);
    var keys :- MainSectionKeys(parsers.template, templates);
    var mainSections := MainSections(assets, keys);
    var withAppBlock :- SectionsWithAppBlock(store, theme.id, parsers, mainSections);
    var editorUrl := EditorUrl(shop, theme.id, FirstProduct(store.publishedProducts));
    var supportsSe := |templateFiles| > 0;
    var supportsAppBlocks := supportsSe && |withAppBlock| > 0;
    Ok(Report(theme, supportsSe, supportsAppBlocks, editorUrl))
  }

  /** `GET /api/store/themes/main`: 200 with the report, or 500 with the one error message. */
  function HandleThemesMain(shop: string, store: Store, parsers: Parsers): (resp: Response)
    ensures resp.status == 200 || resp == Response(500, ErrorBody(FailureMessage))
    ensures resp.status == 200 <==> ProbeTheme(shop, store, parsers).Ok?
    ensures resp.status == 200 ==> resp.body == ThemeBody(ProbeTheme(shop, store, parsers).value)
  {
    match ProbeTheme(shop, store, parsers)
    case Ok(report) => Response(200, ThemeBody(report))
    case Err(_) => Response(500, ErrorBody(FailureMessage))
  }

  // ---------------------------------------------------------------------
  // What the response says

  /** The role match is exact: a theme whose role is `MAIN` is not the published theme. */
  lemma RoleMatchIsCaseSensitive()
    ensures PublishedTheme([Theme(1, "Dawn", "unpublished"), Theme(2, "Sense", "MAIN")]) == None
    ensures PublishedTheme([Theme(1, "Dawn", "unpublished"), Theme(2, "Sense", "main")]) == Some(Theme(2, "Sense", "main"))
  {
    var themes := [Theme(1, "Dawn", "unpublished"), Theme(2, "Sense", "main")];
    assert !IsPublished(themes[0]) && IsPublished(themes[1]);
  }

  /** Without a theme whose role is exactly `main` the handler answers 500. */
  lemma NoPublishedThemeFails(shop: string, store: Store, parsers: Parsers)
    requires forall k | 0 <= k < |store.themes| :: store.themes[k].role != "main"
    ensures HandleThemesMain(shop, store, parsers) == Response(500, ErrorBody(FailureMessage))
  {
  }

  /** A product template the store cannot deliver makes the handler answer 500. */
  lemma TemplateUnavailableFails(shop: string, store: Store, parsers: Parsers, k: nat)
    requires PublishedTheme(store.themes).Some?
    requires var id := PublishedTheme(store.themes).value.id;
      && id in store.assetLists && k < |store.assetLists[id]|
      && store.assetLists[id][k].key == ProductTemplateKey
      && (id, ProductTemplateKey) !in store.assetValues
    ensures HandleThemesMain(shop, store, parsers) == Response(500, ErrorBody(FailureMessage))
  {
    var id := PublishedTheme(store.themes).value.id;
    var files := TemplateFiles(store.assetLists[id]);
    var m :| 0 <= m < |files| && files[m] == store.assetLists[id][k];
    assert FetchTemplates(store, id, files).Err?;
  }

  /** The main section, among `assets`, that the product template `file` names, when its text is delivered and parses. */
  function TemplateSection(store: Store, themeId: nat, parsers: Parsers, assets: seq<AssetFile>, file: AssetFile): Option<AssetFile> {
    if (themeId, file.key) !in store.assetValues then None
    else
      match MainSectionKey(parsers.template, Asset(file.key, store.assetValues[(themeId, file.key)]))
      case Err(_) => None
      case Ok(key) => SectionFile(assets, key)
  }

  /** The product template `file` has a main section whose schema declares an `@app` block. */
  predicate TemplateReachesAppBlock(store: Store, themeId: nat, parsers: Parsers, assets: seq<AssetFile>, file: AssetFile) {
    match TemplateSection(store, themeId, parsers, assets, file)
    case None => false
    case Some(section) => DeclaresAppBlock(store, themeId, parsers, section)
  }

  /** The intermediate values of a probe that succeeds, stage by stage. */
  lemma ProbeThemeStages(shop: string, store: Store, parsers: Parsers)
    returns (theme: Theme, templates: seq<Asset>, keys: seq<string>, withAppBlock: seq<AssetFile>)
    requires ProbeTheme(shop, store, parsers).Ok?
    ensures PublishedTheme(store.themes) == Some(theme) && theme.id in store.assetLists
    ensures FetchTemplates(store, theme.id, TemplateFiles(store.assetLists[theme.id])) == Ok(templates)
    ensures MainSectionKeys(parsers.template, templates) == Ok(keys)
    ensures SectionsWithAppBlock(store, theme.id, parsers, MainSections(store.assetLists[theme.id], keys)) == Ok(withAppBlock)
    ensures var supportsSe := |TemplateFiles(store.assetLists[theme.id])| > 0;
      ProbeTheme(shop, store, parsers).value ==
        Report(theme, supportsSe, supportsSe && |withAppBlock| > 0, EditorUrl(shop, theme.id, FirstProduct(store.publishedProducts)))
  {
    theme := PublishedTheme(store.themes).value;
    var files := TemplateFiles(store.assetLists[theme.id]);
    templates := FetchTemplates(store, theme.id, files).value;
    keys := MainSectionKeys(parsers.template, templates).value;
    withAppBlock := SectionsWithAppBlock(store, theme.id, parsers, MainSections(store.assetLists[theme.id], keys)).value;
  }

  /** The converse of `ProbeThemeStages`: stages that all succeed make the probe succeed with their report. */
  lemma ProbeThemeOfStages(shop: string, store: Store, parsers: Parsers,
                           theme: Theme, templates: seq<Asset>, keys: seq<string>, withAppBlock: seq<AssetFile>)
    requires PublishedTheme(store.themes) == Some(theme) && theme.id in store.assetLists
    requires FetchTemplates(store, theme.id, TemplateFiles(store.assetLists[theme.id])) == Ok(templates)
    requires MainSectionKeys(parsers.template, templates) == Ok(keys)
    requires SectionsWithAppBlock(store, theme.id, parsers, MainSections(store.assetLists[theme.id], keys)) == Ok(withAppBlock)
    ensures var supportsSe := |TemplateFiles(store.assetLists[theme.id])| > 0;
      ProbeTheme(shop, store, parsers) ==
        Ok(Report(theme, supportsSe, supportsSe && |withAppBlock| > 0, EditorUrl(shop, theme.id, FirstProduct(store.publishedProducts))))
  {
  }

  /** Some main section is kept exactly when some product template reaches an `@app` block. */
  lemma AppBlockSectionFound(store: Store, id: nat, parsers: Parsers, assets: seq<AssetFile>,
                             templates: seq<Asset>, keys: seq<string>, withAppBlock: seq<AssetFile>)
    requires FetchTemplates(store, id, TemplateFiles(assets)) == Ok(templates)
    requires MainSectionKeys(parsers.template, templates) == Ok(keys)
    requires SectionsWithAppBlock(store, id, parsers, MainSections(assets, keys)) == Ok(withAppBlock)
    ensures |withAppBlock| > 0 <==> exists k | 0 <= k < |TemplateFiles(assets)| ::
      TemplateReachesAppBlock(store, id, parsers, assets, TemplateFiles(assets)[k])
  {
    if |withAppBlock| > 0 {
      KeptSectionHasTemplate(store, id, parsers, assets, templates, keys, withAppBlock[0]);
    }
    if k :| 0 <= k < |TemplateFiles(assets)| && TemplateReachesAppBlock(store, id, parsers, assets, TemplateFiles(assets)[k]) {
      ReachingTemplateKeepsSection(store, id, parsers, assets, templates, keys, k);
      assert TemplateSection(store, id, parsers, assets, TemplateFiles(assets)[k]).value in withAppBlock;
    }
  }

  /** A kept section is the main section of some product template. */
  lemma KeptSectionHasTemplate(store: Store, id: nat, parsers: Parsers, assets: seq<AssetFile>,
                               templates: seq<Asset>, keys: seq<string>, section: AssetFile)
    requires FetchTemplates(store, id, TemplateFiles(assets)) == Ok(templates)
    requires MainSectionKeys(parsers.template, templates) == Ok(keys)
    requires section in MainSections(assets, keys) && DeclaresAppBlock(store, id, parsers, section)
    ensures exists k | 0 <= k < |TemplateFiles(assets)| :: TemplateReachesAppBlock(store, id, parsers, assets, TemplateFiles(assets)[k])
  {
    var files := TemplateFiles(assets);
    var lookups := Map((key: string) => SectionFile(assets, key), keys);
    var k :| 0 <= k < |lookups| && lookups[k] == Some(section);
    assert templates[k] == Asset(files[k].key, store.assetValues[(id, files[k].key)]);
    assert MainSectionKey(parsers.template, templates[k]) == Ok(keys[k]);
    assert TemplateSection(store, id, parsers, assets, files[k]) == Some(section);
    assert TemplateReachesAppBlock(store, id, parsers, assets, files[k]);
  }

  /** The section a product template reaches is one of the main sections, and it declares an `@app` block. */
  lemma ReachingTemplateKeepsSection(store: Store, id: nat, parsers: Parsers, assets: seq<AssetFile>,
                                     templates: seq<Asset>, keys: seq<string>, k: nat)
    requires FetchTemplates(store, id, TemplateFiles(assets)) == Ok(templates)
    requires MainSectionKeys(parsers.template, templates) == Ok(keys)
    requires k < |TemplateFiles(assets)| && TemplateReachesAppBlock(store, id, parsers, assets, TemplateFiles(assets)[k])
    ensures var section := TemplateSection(store, id, parsers, assets, TemplateFiles(assets)[k]);
      section.Some? && section.value in MainSections(assets, keys) && DeclaresAppBlock(store, id, parsers, section.value)
  {
    var files := TemplateFiles(assets);
    var lookups := Map((key: string) => SectionFile(assets, key), keys);
    assert templates[k] == Asset(files[k].key, store.assetValues[(id, files[k].key)]);
    assert MainSectionKey(parsers.template, templates[k]) == Ok(keys[k]);
    var section := TemplateSection(store, id, parsers, assets, files[k]).value;
    assert lookups[k] == Some(section);
  }

  /**
   * A 200 response carries the first theme whose role is `main`;
   * `supportsSe` says whether its assets hold `templates/product.json`, and
   * nothing else; `supportsAppBlocks` says whether some product template's
   * main section declares an `@app` block, and implies `supportsSe`.
   */
  lemma SuccessfulResponse(shop: string, store: Store, parsers: Parsers)
    requires HandleThemesMain(shop, store, parsers).status == 200
    ensures var report := HandleThemesMain(shop, store, parsers).body.report;
      var assets := store.assetLists[report.theme.id];
      && PublishedTheme(store.themes) == Some(report.theme)
      && report.theme.id in store.assetLists
      && (report.supportsSe <==> exists k | 0 <= k < |assets| :: assets[k].key == ProductTemplateKey)
      && (report.supportsAppBlocks ==> report.supportsSe)
      && (report.supportsAppBlocks <==> exists k | 0 <= k < |TemplateFiles(assets)| ::
            TemplateReachesAppBlock(store, report.theme.id, parsers, assets, TemplateFiles(assets)[k]))
      && report.editorUrl == EditorUrl(shop, report.theme.id, FirstProduct(store.publishedProducts))
  {
    var theme, templates, keys, withAppBlock := ProbeThemeStages(shop, store, parsers);
    var assets := store.assetLists[theme.id];
    TemplateFilesNonEmpty(assets);
    AppBlockSectionFound(store, theme.id, parsers, assets, templates, keys, withAppBlock);
  }

  /**
   * A 200 response means every main section the product templates name was
   * read and holds a schema block: a section without one ends in 500.
   */
  lemma SuccessfulResponseSchemas(shop: string, store: Store, parsers: Parsers)
    requires HandleThemesMain(shop, store, parsers).status == 200
    ensures var id := HandleThemesMain(shop, store, parsers).body.report.theme.id;
      && id in store.assetLists
      && var assets := store.assetLists[id];
      forall k | 0 <= k < |TemplateFiles(assets)| ::
        var section := TemplateSection(store, id, parsers, assets, TemplateFiles(assets)[k]);
        section.Some? ==>
          (id, section.value.key) in store.assetValues && SchemaScanner.HasSchemaBlock(store.assetValues[(id, section.value.key)])
  {
    var theme, templates, keys, withAppBlock := ProbeThemeStages(shop, store, parsers);
    var id := theme.id;
    var assets := store.assetLists[id];
    var files := TemplateFiles(assets);
    var lookups := Map((key: string) => SectionFile(assets, key), keys);
    var sections := MainSections(assets, keys);
    forall k | 0 <= k < |files| && TemplateSection(store, id, parsers, assets, files[k]).Some?
      ensures var section := TemplateSection(store, id, parsers, assets, files[k]).value;
        (id, section.key) in store.assetValues && SchemaScanner.HasSchemaBlock(store.assetValues[(id, section.key)])
    {
      var section := TemplateSection(store, id, parsers, assets, files[k]).value;
      assert templates[k] == Asset(files[k].key, store.assetValues[(id, files[k].key)]);
      assert lookups[k] == Some(section);
      var m :| 0 <= m < |sections| && sections[m] == section;
      assert SectionVerdict(store, id, parsers, sections[m]).Ok?;
    }
  }

  /**
   * `supportsSe` depends on the published theme's asset listing only as a
   * multiset: reordering the listing, or changing any template or section
   * text, leaves it as it is.
   */
  lemma SupportsSeIgnoresOrder(shop1: string, store1: Store, parsers1: Parsers, shop2: string, store2: Store, parsers2: Parsers)
    requires HandleThemesMain(shop1, store1, parsers1).status == 200
    requires HandleThemesMain(shop2, store2, parsers2).status == 200
    requires var id1 := HandleThemesMain(shop1, store1, parsers1).body.report.theme.id;
      var id2 := HandleThemesMain(shop2, store2, parsers2).body.report.theme.id;
      id1 in store1.assetLists && id2 in store2.assetLists
      && multiset(store1.assetLists[id1]) == multiset(store2.assetLists[id2])
    ensures HandleThemesMain(shop1, store1, parsers1).body.report.supportsSe
      == HandleThemesMain(shop2, store2, parsers2).body.report.supportsSe
  {
    SuccessfulResponse(shop1, store1, parsers1);
    SuccessfulResponse(shop2, store2, parsers2);
    var a1 := store1.assetLists[HandleThemesMain(shop1, store1, parsers1).body.report.theme.id];
    var a2 := store2.assetLists[HandleThemesMain(shop2, store2, parsers2).body.report.theme.id];
    HasKeyUnderPermutation(a1, a2);
    HasKeyUnderPermutation(a2, a1);
  }

  lemma HasKeyUnderPermutation(a: seq<AssetFile>, b: seq<AssetFile>)
    requires multiset(a) == multiset(b)
    ensures (exists k | 0 <= k < |a| :: a[k].key == ProductTemplateKey) ==> exists k | 0 <= k < |b| :: b[k].key == ProductTemplateKey
  {
    if k :| 0 <= k < |a| && a[k].key == ProductTemplateKey {
      assert a[k] in multiset(b);
      var m :| 0 <= m < |b| && b[m] == a[k];
    }
  }

  /** The body of `{% schema %}S{% endschema %}` is `S`. */
  lemma PlainSchemaBlock()
    ensures SchemaScanner.ExtractSchema("{% schema %}S{% endschema %}") == Some("S")
  {
    SchemaScanner.PlainStartTag();
    SchemaScanner.PlainEndTag();
    SchemaScanner.ShortTextHasNoTag("", SchemaScanner.StartWord);
    SchemaScanner.ShortTextHasNoTag("S", SchemaScanner.EndWord);
    SchemaScanner.ExtractSchemaRoundTrip("", "{% schema %}", "S", "{% endschema %}", "");
    SchemaBlockText();
  }

  lemma SchemaBlockText()
    ensures "" + "{% schema %}" + "S" + "{% endschema %}" + "" == "{% schema %}S{% endschema %}"
  {
  }

  /** A section whose schema holds a single block of type `@app` is kept. */
  lemma AppBlockSectionKept(store: Store, themeId: nat, parsers: Parsers, file: AssetFile, body: string)
    requires (themeId, file.key) in store.assetValues
    requires SchemaScanner.ExtractSchema(store.assetValues[(themeId, file.key)]) == Some(body)
    requires parsers.schema(body) == Some(SchemaDoc(Some([BlockObject(Str("@app"))])))
    ensures SectionVerdict(store, themeId, parsers, file) == Ok(Some(file))
  {
    var schema := SchemaDoc(Some([BlockObject(Str("@app"))]));
    assert SectionSchema(store, themeId, parsers, file) == Ok(schema);
    AppBlockAccepted(file.key);
  }

  /** A schema whose only block has type `@app` accepts app blocks. */
  lemma AppBlockAccepted(key: string)
    ensures AcceptsAppBlock(SchemaDoc(Some([BlockObject(Str("@app"))])), key) == Ok(true)
  {
    var blocks := [BlockObject(Str("@app"))];
    assert IsAppBlock(blocks[0]);
  }

  /** One main section whose schema accepts app blocks is the whole answer. */
  lemma SingleSectionWithAppBlock(store: Store, themeId: nat, parsers: Parsers, file: AssetFile)
    requires SectionVerdict(store, themeId, parsers, file) == Ok(Some(file))
    ensures SectionsWithAppBlock(store, themeId, parsers, [file]) == Ok([file])
  {
    var r := SectionsWithAppBlock(store, themeId, parsers, [file]);
    assert r.Ok?;
    assert Filter((f: AssetFile) => DeclaresAppBlock(store, themeId, parsers, f), [file]) == [file] by {
      assert [file][1..] == [];
    }
  }

  /** The product template of the scenario below is read from the store. */
  lemma ScenarioTemplates(store: Store, templateText: string)
    requires (7, "templates/product.json") in store.assetValues
    requires store.assetValues[(7, "templates/product.json")] == templateText
    ensures FetchTemplates(store, 7, [AssetFile("templates/product.json")]) == Ok([Asset("templates/product.json", templateText)])
  {
    var templates := FetchTemplates(store, 7, [AssetFile("templates/product.json")]);
    assert templates.Ok? && |templates.value| == 1 && templates.value[0] == Asset("templates/product.json", templateText);
    assert templates.value == [Asset("templates/product.json", templateText)];
  }

  /** The main section `hero` of the scenario below is found in the listing and kept. */
  lemma ScenarioSections(store: Store, parsers: Parsers, assets: seq<AssetFile>, body: string)
    requires assets == [AssetFile("sections/hero.liquid"), AssetFile("templates/product.json")]
    requires (7, "sections/hero.liquid") in store.assetValues
    requires SchemaScanner.ExtractSchema(store.assetValues[(7, "sections/hero.liquid")]) == Some(body)
    requires parsers.schema(body) == Some(SchemaDoc(Some([BlockObject(Str("@app"))])))
    ensures SectionsWithAppBlock(store, 7, parsers, MainSections(assets, ["sections/hero.liquid"])) == Ok([AssetFile("sections/hero.liquid")])
  {
    var hero := AssetFile("sections/hero.liquid");
    MainSectionsSingle(assets, "sections/hero.liquid");
    assert SectionFile(assets, "sections/hero.liquid") == Some(hero);
    AppBlockSectionKept(store, 7, parsers, hero, body);
    SingleSectionWithAppBlock(store, 7, parsers, hero);
  }

  /** The product template of the scenario below names the section `hero`. */
  lemma ScenarioKeys(parsers: Parsers, text: string)
    requires parsers.template(text) == Some(TemplateDoc(Some(SectionsDoc(MainObject(Str("hero"))))))
    ensures MainSectionKeys(parsers.template, [Asset("templates/product.json", text)]) == Ok(["sections/hero.liquid"])
  {
    var t := Asset("templates/product.json", text);
    assert SectionKey("hero") == "sections/hero.liquid";
    assert MainSectionKey(parsers.template, t) == Ok("sections/hero.liquid");
    var r := MainSectionKeys(parsers.template, [t]);
    assert r.Ok? && |r.value| == 1 && r.value[0] == "sections/hero.liquid";
    assert r.value == ["sections/hero.liquid"];
  }

  /** The listing of the scenario below holds one product template. */
  lemma ScenarioTemplateFiles()
    ensures TemplateFiles([AssetFile("sections/hero.liquid"), AssetFile("templates/product.json")]) == [AssetFile("templates/product.json")]
  {
    var hero, template := AssetFile("sections/hero.liquid"), AssetFile("templates/product.json");
    var assets := [hero, template];
    IsAppBlockTemplateKey(hero);
    IsAppBlockTemplateKey(template);
    assert hero.key != ProductTemplateKey;
    assert assets[1..] == [template] && [template][1..] == [];
    assert Filter(IsAppBlockTemplate, [template]) == [template];
    assert Filter(IsAppBlockTemplate, assets) == Filter(IsAppBlockTemplate, [template]);
  }

  /**
   * A published theme whose product template names the section `hero`, whose
   * schema body declares an `@app` block (the section text may be
   * `{% schema %}S{% endschema %}`, by `PlainSchemaBlock`): the response is
   * 200 with both flags set.
   */
  lemma AppBlockScenario(shop: string, store: Store, parsers: Parsers, templateText: string, sectionText: string, body: string)
    requires store.themes == [Theme(3, "Old", "unpublished"), Theme(7, "Dawn", "main")]
    requires store.assetLists == map[7 := [AssetFile("sections/hero.liquid"), AssetFile("templates/product.json")]]
    requires (7, "templates/product.json") in store.assetValues && store.assetValues[(7, "templates/product.json")] == templateText
    requires (7, "sections/hero.liquid") in store.assetValues && store.assetValues[(7, "sections/hero.liquid")] == sectionText
    requires parsers.template(templateText) == Some(TemplateDoc(Some(SectionsDoc(MainObject(Str("hero"))))))
    requires SchemaScanner.ExtractSchema(sectionText) == Some(body)
    requires parsers.schema(body) == Some(SchemaDoc(Some([BlockObject(Str("@app"))])))
    ensures HandleThemesMain(shop, store, parsers) ==
      Response(200, ThemeBody(Report(Theme(7, "Dawn", "main"), true, true, EditorUrl(shop, 7, FirstProduct(store.publishedProducts)))))
  {
    var theme := Theme(7, "Dawn", "main");
    var hero := AssetFile("sections/hero.liquid");
    var template := AssetFile("templates/product.json");
    assert PublishedTheme(store.themes) == Some(theme) by {
      assert !IsPublished(store.themes[0]) && IsPublished(store.themes[1]);
    }
    ScenarioTemplateFiles();
    ScenarioTemplates(store, templateText);
    ScenarioKeys(parsers, templateText);
    ScenarioSections(store, parsers, [hero, template], body);
    ProbeThemeOfStages(shop, store, parsers, theme, [Asset(template.key, templateText)], ["sections/hero.liquid"], [hero]);
  }
}
