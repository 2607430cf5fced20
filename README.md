# Theme app-block capability probe

A Dafny model of the handler of `GET /api/store/themes/main` in a Shopify
app's Express server. The handler asks the store for its themes, picks the
published theme (role `main`), and keeps that theme's product template
`templates/product.json`. It reads the template's main section type and
finds the section file `sections/<type>.liquid`. It cuts the
`{% schema %} … {% endschema %}` block out of that section's Liquid text and
checks whether the schema's `blocks` declare a block of type `@app`. It then
answers with two capability flags, `supportsSe` and `supportsAppBlocks`, and
a theme-editor preview URL. Any failure on the way gives one and the same
500 response.

Modules, one per concern:

- `Wrappers` (`wrappers.dfy`): `Option` and `Result`, usable with `:-`.
- `ArrayOps` (`array_ops.dfy`): the JavaScript array methods the handler
  chains (`find`, `some`, `filter`, `map`). `find` is built on `FindIndex`,
  a `findIndex` that the handler itself does not call. A `map` whose
  callback may throw, or a `Promise.all` over one, is `MapResult`. `Find`,
  `Any`, `Map` and `MapResult` each have a contract that pins the result
  down. The contracts of `Filter` and `Somes` say which elements are kept;
  their order follows from `FilterConcat` and `SomesConcat`.
- `ThemeData` (`theme_data.dfy`): themes, asset listings, assets, products.
  It also holds the parts of a parsed template and of a parsed schema that
  the handler reads, including the `undefined`/`null` cases that JavaScript
  turns into the strings `"undefined"` and `"null"`.
- `SchemaScanner` (`schema_scanner.dfy`): the regular expression
  `/\{\%\s+schema\s+\%\}([\s\S]*?)\{\%\s+endschema\s+\%\}/m`, written as an
  explicit scanner and proved against a declarative statement of what a tag
  and a match are. `\s` is the WhiteSpace and LineTerminator set of
  ECMA-262 5.1 edition, section 15.10.2.12.
- `UriComponent` (`uri_component.dfy`): `encodeURIComponent` as section
  15.1.3.4 of ECMA-262 5.1 edition defines it (UTF-8 octets, `%XY` with
  upper-case digits). Its partner is `decodeURIComponent` (section 15.1.3.2),
  and the two are proved to round-trip. The module also renders a theme id
  in decimal.
- `ThemeProbe` (`theme_probe.dfy`): the handler as a chain of stages,
  `ProbeTheme`, with the response `HandleThemesMain` built from it.

Inputs:
- `Store` holds the store's answers to every remote call the handler makes:
  - the theme list;
  - the asset listing per theme id;
  - the asset text per (theme id, key);
  - the published products.
  A key missing from the listing map or the asset-text map is a request
  that fails. The theme list and the product list are plain lists, so the
  requests for them always succeed.
- `Parsers` stands for `JSON.parse` of a template and of a schema body. It
  is a pair of functions that give `None` for a SyntaxError.
- The `shop` query value is a parameter.

Points where the code's behaviour is easy to misread:
- the role test at `web/index.js:108` is exact and case-sensitive
  (`=== 'main'`), not a case-insensitive match (`RoleMatchIsCaseSensitive`);
- the probe is all-or-nothing: a template or section that cannot be read or
  parsed is not skipped, it ends the whole request with the 500 response of
  `web/index.js:217-220`;
- `clients`, `gql`, `getNodesFromConnections` and `containsAppBlock` are
  used at `web/index.js:105`, `:167`, `:187` and `:205` but are not declared
  in the file. The model follows the data flow these names evidently stand
  for.

## Model

| member | source | states |
|---|---|---|
| ArrayOps.Find | web/index.js:108 | `find` returns an element iff some element satisfies the predicate, and then it is the first one that does |
| ArrayOps.Any | web/index.js:117 | `some` is true iff some element satisfies the predicate |
| ArrayOps.Filter | web/index.js:116-118 | `filter` keeps exactly the elements satisfying the predicate: every kept element satisfies it and comes from the input, every satisfying input element is kept, and the result is no longer than the input |
| ArrayOps.FilterIsSubsequence | web/index.js:116-118 | what `filter` keeps is a subsequence of its input: order is kept |
| ArrayOps.FilterConcat | web/index.js:163 | filtering splits over concatenation, so kept elements keep their relative order |
| ArrayOps.Somes | web/index.js:138 | `filter((value) => value)` over found-or-undefined values keeps exactly the found ones and is no longer than its input |
| ArrayOps.SomesConcat | web/index.js:138 | dropping the absent values splits over concatenation: order is kept |
| ArrayOps.MapResult | web/index.js:121-129 | a `map` whose callback may throw succeeds iff every call succeeds; it then gives every result in order, and otherwise the error of the first element that fails |
| ArrayOps.Map | web/index.js:132-137 | `map` gives one result per element, index by index |
| ArrayOps.MapConcat | web/index.js:132-137 | `map` splits over concatenation |
| ThemeProbe.PublishedTheme | web/index.js:108 | there is a published theme iff some theme's role is exactly `main`, and it is the first such theme in list order |
| ThemeProbe.RoleMatchIsCaseSensitive | web/index.js:108 | a theme whose role is `MAIN` is not selected; a later theme with role `main` is |
| ThemeProbe.NoPublishedThemeFails | web/index.js:108-113 | with no theme whose role is `main`, reading `publishedTheme.id` throws and the response is exactly status 500 with `Failed to fetch theme data` |
| ThemeProbe.IsAppBlockTemplateKey | web/index.js:102 | with `APP_BLOCK_TEMPLATES = ['product']`, a file is a template to check iff its key is exactly `templates/product.json` |
| ThemeProbe.TemplateFiles | web/index.js:116-118 | the template files are exactly the assets keyed `templates/product.json`: each kept file has that key, each asset with that key is kept, and the result is a subsequence of the listing |
| ThemeProbe.TemplateFilesConcat | web/index.js:116-118 | the filter preserves listing order: it splits over concatenation of listings |
| ThemeProbe.TemplateFilesNonEmpty | web/index.js:116-118 | some template file is kept iff the listing has an asset keyed `templates/product.json` |
| ThemeProbe.AssetList | web/index.js:111-113 | the asset listing is the store's listing for that theme id, and the request fails iff the store has none |
| ThemeProbe.FetchAsset | web/index.js:123-127 | an asset read by key gives that key with the store's text, and fails iff the store has no text for it |
| ThemeProbe.FetchTemplates | web/index.js:121-129 | all template texts are read, one per template file, in order, and the stage fails iff some template's text is missing |
| ThemeData.MainTypeTextCases | web/index.js:135 | `json.sections.main && json.sections.main.type` renders as `undefined` for a missing `main`, `null` for a null one, the empty string for an empty string, `undefined` for any other string (which has no `type`), and the type's own text for an object |
| ThemeProbe.MainSectionKey | web/index.js:134-136 | a key is produced iff the template parses and has `sections`; a template that is not JSON fails with that template's key; every key has the form `sections/….liquid` |
| ThemeProbe.MainSectionKeyCases | web/index.js:134-136 | a template whose `sections.main` is missing, or is a non-empty string, is looked up under `sections/undefined.liquid`; a null `main` under `sections/null.liquid`; an empty-string `main` under `sections/.liquid`; one whose `main.type` is `t` under `sections/t.liquid`; a template that is not JSON fails as such, and one without `sections` fails as such |
| ThemeProbe.MainSectionKeys | web/index.js:132-136 | one section key per template, in template order, and the stage fails iff some template cannot be parsed or has no `sections` |
| ThemeProbe.SectionFile | web/index.js:136 | the section found for a key has that key and is the first asset with it; none is found iff no asset has the key |
| ThemeProbe.MainSections | web/index.js:132-138 | the resolved sections are assets of the theme, and there are no more of them than templates |
| ThemeProbe.MainSectionsSingle | web/index.js:136-138 | each template contributes the first asset with its section key, or nothing when there is none |
| ThemeProbe.MainSectionsConcat | web/index.js:132-138 | section resolution is template by template: it splits over concatenation of the keys, so template order is kept |
| SchemaScanner.TagWords | web/index.js:152 | `schema` and `endschema` are words a tag can carry: non-empty, not starting with a space, with no `{` |
| SchemaScanner.SkipSpaces | web/index.js:152 | a greedy `\s` run from `i`: every character before the returned position is a space, and the one at it is not |
| SchemaScanner.TagAt | web/index.js:152 | a tag found at `i` lies inside the string and is at least as long as `{% word %}` |
| SchemaScanner.TagAtSound | web/index.js:152 | what the scanner finds at a position is a tag: `{%`, one or more spaces, the word, one or more spaces, `%}` |
| SchemaScanner.TagAtComplete | web/index.js:152 | every tag in the text is found by the scanner at its start, ending where the tag ends |
| SchemaScanner.TagOfParts | web/index.js:152 | `{%` + spaces + word + spaces + `%}`, with both runs non-empty, is a tag |
| SchemaScanner.PlainStartTag | web/index.js:152 | `{% schema %}` is a start tag |
| SchemaScanner.PlainEndTag | web/index.js:152 | `{% endschema %}` is an end tag |
| SchemaScanner.TagHasNoInnerBrace | web/index.js:152 | no `{` occurs inside a tag after its first character, so two tags never overlap |
| SchemaScanner.FindTag | web/index.js:151-153 | the first position at or after `from` where a tag starts, or none if no tag starts there |
| SchemaScanner.FindSchema | web/index.js:151-153 | a match starts at the first start tag and ends at the nearest end tag after it (the lazy `[\s\S]*?`); there is no match iff no end tag follows any start tag |
| SchemaScanner.ExtractSchema | web/index.js:151-154 | `match[1]` exists iff the regular expression matches, and the body it gives contains no end tag |
| SchemaScanner.NoEndTagBetween | web/index.js:152 | a stretch where no end tag starts contains no end tag |
| SchemaScanner.NoTagStartsIn | web/index.js:152 | a stretch before a `{` that contains no tag has no tag starting in it either |
| SchemaScanner.ExtractSchemaFound | web/index.js:151-154 | a body is extracted iff the text has a start tag followed by an end tag |
| SchemaScanner.ExtractSchemaRoundTrip | web/index.js:151-154 | for prefix + start tag + body + end tag + suffix, where the prefix holds no start tag and the body no end tag, the extracted body is exactly the body, whatever the suffix holds |
| SchemaScanner.ExtractSchemaAt | web/index.js:151-154 | given the first start tag and the nearest end tag after it, the body is the text between them |
| ThemeProbe.SectionSchema | web/index.js:146-154 | the schema is read iff the section's text exists, a schema block is extracted from it and its body parses, and it is then exactly the parse of the extracted body; a section whose text has no schema block fails with `match` null |
| ThemeProbe.SectionWithoutSchemaFails | web/index.js:151-154 | one main section without a schema block makes the whole section stage fail |
| ThemeProbe.SomeAppBlock | web/index.js:157 | `blocks.some(b => b.type === '@app')` is true iff an `@app` block comes before any `null` block; it is false iff no block is `null` or `@app`; it throws on a `null` block reached first |
| ThemeProbe.AcceptsAppBlock | web/index.js:145-158 | a schema without `blocks` does not accept app blocks; the check throws iff some `null` block comes before every `@app` block, and it then names the section; when it does not throw, its answer is exactly "some block has type `@app`" |
| ThemeProbe.SectionVerdict | web/index.js:144-161 | one section's check succeeds iff its schema is read and the `some` does not throw; it then answers the section itself or null, and the section exactly when its schema declares an `@app` block |
| ThemeProbe.SectionsWithAppBlock | web/index.js:142-163 | the stage succeeds iff every section's check succeeds; it then keeps exactly the sections whose schema declares an `@app` block, as a subsequence of the main sections |
| ThemeProbe.KeptAreDeclaring | web/index.js:160-163 | the sections left after `filter((value) => value)` are the sections filtered by "declares an `@app` block" |
| ThemeProbe.FirstProduct | web/index.js:187 | the product is the first published product, and there is one iff the list is not empty |
| UriComponent.Encode | web/index.js:192-194 | every character of `encodeURIComponent`'s output is unescaped, `%` or an upper-case hexadecimal digit |
| UriComponent.EncodeHasNoDelimiters | web/index.js:192-194 | the encoded text holds no `/`, `?`, `&`, `#`, `=` or `:` |
| UriComponent.EncodeUnescaped | web/index.js:192-194 | text made only of unescaped characters is its own encoding |
| UriComponent.Utf8 | web/index.js:192-194 | a code point encodes to one to four octets |
| UriComponent.Utf8RoundTrip | web/index.js:192-194 | the octets of a code point form a valid UTF-8 sequence that decodes back to it |
| UriComponent.EscapesRoundTrip | web/index.js:192-194 | `%XY` escapes decode back to their octets |
| UriComponent.HexRoundTrip | web/index.js:192-194 | an upper-case hexadecimal digit reads back as its value |
| UriComponent.EncodeCharRoundTrip | web/index.js:192-194 | decoding the encoding of one character gives that character back, followed by the decoding of the rest |
| UriComponent.DecodeEncode | web/index.js:192-194 | `decodeURIComponent(encodeURIComponent(s)) == s` for every string |
| UriComponent.DecimalText | web/index.js:192 | the theme id appears as a non-empty run of decimal digits, with no leading zero unless the id is 0 |
| UriComponent.DecimalRoundTrip | web/index.js:192 | those digits read back as the theme id |
| ThemeProbe.EditorPrefix | web/index.js:192 | the prefix is `https://`, the shop, `/admin/themes/`, the id's digits and `/editor?previewPath=`, each at its own offset |
| ThemeProbe.EditorUrl | web/index.js:192-194 | the URL starts with that prefix, and after it there is no `/`, `?` or `&` |
| ThemeProbe.EditorUrlProductPath | web/index.js:184-194 | the preview path decodes to `/products/` followed by the first published product's handle, or `/products/undefined` when none is published |
| ThemeProbe.EditorUrlParts | web/index.js:192-194 | the URL starts with `https://<shop>/admin/themes/<id>/editor?previewPath=`; after it there is no `/`, `?` or `&`; what follows decodes to `/products/<handle>`, with `undefined` when there is no product; the id in it reads back as the theme id |
| ThemeProbe.HandleThemesMain | web/index.js:201-220 | the response is status 200 with the report iff every stage succeeds, and otherwise exactly status 500 with `Failed to fetch theme data` |
| ThemeProbe.TemplateUnavailableFails | web/index.js:121-129 | a product template the store cannot deliver makes the response exactly the 500 one |
| ThemeProbe.ProbeTheme | web/index.js:105-198 | with no published theme the probe fails; a success carries the published theme, whose listing exists, `supportsAppBlocks` implies `supportsSe`, and the editor URL is built from the shop, the theme id and the first product |
| ThemeProbe.ProbeThemeOfStages | web/index.js:105-198 | conversely, when every stage succeeds the probe succeeds with the theme, `supportsSe` as "some template file", `supportsAppBlocks` as `supportsSe` and "some kept section", and the editor URL |
| ThemeProbe.ProbeThemeStages | web/index.js:105-198 | a successful probe passed every stage in turn, and its report is the selected theme, the two flags computed from the template files and kept sections, and the editor URL |
| ThemeProbe.AppBlockSectionFound | web/index.js:132-163 | some section is kept iff some product template's main section is found and declares an `@app` block |
| ThemeProbe.KeptSectionHasTemplate | web/index.js:132-163 | every kept section is the main section of some product template |
| ThemeProbe.ReachingTemplateKeepsSection | web/index.js:132-163 | a product template whose main section declares an `@app` block contributes that section to the main sections |
| ThemeProbe.SuccessfulResponse | web/index.js:197-204 | a 200 response carries the first theme whose role is `main`; `supportsSe` holds iff an asset is keyed `templates/product.json`; `supportsAppBlocks` implies `supportsSe` and holds iff some product template's main section declares an `@app` block; the editor URL is built from the shop, the theme id and the first product |
| ThemeProbe.SuccessfulResponseSchemas | web/index.js:146-154 | in a 200 response, every main section a product template names was read and holds a schema block |
| ThemeProbe.SupportsSeIgnoresOrder | web/index.js:197 | `supportsSe` depends on the asset listing only as a multiset: reorderings, and the texts of templates and sections, do not change it |
| SchemaScanner.RegExpSpaceCases | web/index.js:152 | `\s` matches space, tab, line feed, carriage return, U+00A0, U+2028 and U+FEFF, and never `{`, `%`, `}`, a letter or a digit |
| SchemaScanner.ShortTextHasNoTag | web/index.js:152 | a text shorter than six characters holds no tag |
| SchemaScanner.TagIsLong | web/index.js:152 | a tag is at least as long as `{% word %}` |
| ThemeProbe.PlainSchemaBlock | web/index.js:151-154 | the body extracted from `{% schema %}S{% endschema %}` is `S` |
| ThemeProbe.AppBlockAccepted | web/index.js:156-157 | a schema whose only block has type `@app` accepts app blocks |
| ThemeProbe.AppBlockSectionKept | web/index.js:144-161 | a section whose schema body parses to a single `@app` block is kept: its check answers the section itself |
| ThemeProbe.SingleSectionWithAppBlock | web/index.js:142-163 | when the only main section is kept, the kept sections are exactly that one |
| ThemeProbe.ScenarioTemplateFiles | web/index.js:116-118 | of a listing `[sections/hero.liquid, templates/product.json]` only the template is kept |
| ThemeProbe.ScenarioTemplates | web/index.js:121-129 | that template is read with the store's text |
| ThemeProbe.ScenarioKeys | web/index.js:132-136 | a template whose `main.type` is `hero` gives the single key `sections/hero.liquid` |
| ThemeProbe.ScenarioSections | web/index.js:132-163 | in that listing `sections/hero.liquid` is the main section, and when it declares `@app` it is kept |
| ThemeProbe.AppBlockScenario | web/index.js:92-221 | a store with an unpublished theme 3 and a published theme 7, whose product template names the section `hero` and whose `hero` schema declares an `@app` block, gets status 200 with theme 7, `supportsSe` and `supportsAppBlocks` both true, and the editor URL |

## Left out

- Express wiring: authentication, webhooks, the content-security-policy
  header, static files, the `index.html` templating and `app.listen`. These
  are framework glue and file I/O. The count endpoints and the create
  endpoints are remote GraphQL calls with trivial status wrapping.
- The remote calls (`clients.rest.get`, the GraphQL client) are not made.
  Their answers are the `Store` value. A missing listing or asset text is a
  request that throws. The session, `accessToken` and the construction of the GraphQL
  client are not modelled.
- `Promise.all` runs its callbacks concurrently and rejects with the first
  rejection to settle. The model takes them in list order and reports the
  first failure in that order. The response is the same 500 for every
  failure, so this affects only the `ProbeError` value, which never reaches
  the client.
- The requests for the theme list (`web/index.js:105`) and for the first
  published product (`web/index.js:184-188`) are assumed to succeed.
  `Store.themes` and `Store.publishedProducts` are plain lists, so a failure
  of either request, which the code answers with the 500 response, is not
  modelled.
- `console.error` logging in the error branch is output only.
- The published-product query (`web/index.js:167-188`) is not modelled. The
  product list is an input, and the model takes its first element.
- `containsAverageRatingAppBlock` and `containsProductReviewsAppBlock`
  (`web/index.js:205-214`) call `containsAppBlock`. It is not defined in the
  file, and it reads `process.env`. `Report` leaves both fields out.
- `JSON.parse` is a parameter, not a parser. The parsed values are reduced
  to what the handler reads:
  - `ThemeData.MainSection` models `sections.main` as `undefined`, `null`, a
    string or an object with a `type`. Numbers and booleans as `main`, and
    a `type` that is not a string, `undefined` or `null`, are not modelled.
  - The schema's `blocks` is either missing or falsy, or an array. A truthy
    `blocks` that is not an array, on which `.some` throws, is not
    modelled.
- `UriComponent.Encode`: `encodeURIComponent` throws a URIError on a lone
  UTF-16 surrogate. A Dafny `char` is a Unicode scalar value, so such input
  cannot be written and that error path is not modelled.
- `UriComponent.DecimalText`: a theme id is a natural number written in
  decimal. JavaScript writes numbers of 1e21 and above in exponent form,
  which is not modelled.
- The `shop` query value is taken as a string. A missing value, which
  JavaScript would render as `undefined`, is not modelled separately.
- `web/order-creator.js`, `web/fetchProductById.js` and
  `web/fetchProducts.js` are not part of this model. They are GraphQL
  wrappers and constant order data with floating-point prices.
