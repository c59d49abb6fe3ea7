# Goods and inventory service — a verified model of its core

The service keeps two PostgreSQL tables behind an HTTP API:

- `goods`: a catalogue of products with a unique `material_code`;
- `inventory`: stock items that point at a good, each with a quantity and an optional expiry date.

This project models the part of the service that decides what happens to
those tables:

- **Query parsing** (`src/request.rs`): the query string is read into
  optional fields, checked field by field with the input predicates and
  parsed into search parameters. Create and update bodies are validated.
- **The filter compiler**: search parameters become an ordered list of
  `AND` conditions with `$k` placeholders and a bind list in the same order.
- **The two repositories** (`src/tables/goods_table.rs`,
  `src/tables/inventory_table.rs`): search, get-all, lookups, insert
  (get-or-create), update (a field-wise COALESCE patch) and delete.
- **The helpers they use** (`src/utils.rs`): the input predicates, the ILIKE
  pattern builder, `truncate`, `sanitize_for_log`, `SearchQueryBuilder`,
  the response messages and pagination.

The database is an in-memory store: the class `Store.Database` holds the
goods and inventory rows, ordered by surrogate key, and the next key of each.
`Store.Database.Valid` holds these invariants:

- keys ascend, so sequence order is `ORDER BY id`;
- material codes are unique;
- every inventory row references an existing good;
- every key is below the next key.

The repositories are classes (`Goods.GoodsTable`, `Inventory.InventoryTable`)
over that store. Each method is proved equal to a specification function of
the old state, and the lemmas next to it state what the service promises about
that function. A compiled query is checked against the filters it comes from:
evaluating its conditions with its binds on a row is proved equivalent to the
search parameters' own predicate on that row.

Modules, one per file:

| file | module | models |
|---|---|---|
| `wrappers.dfy` | `Wrappers` | `Option`, `Result` |
| `stdstr.dfy` | `StdStr` | digits, `contains`, `replace`, ASCII lowering |
| `validation.dfy` | `Validation` | `utils::validation` |
| `like.dfy` | `Like` | the ILIKE matcher the conditions are evaluated with |
| `string_utils.dfy` | `StringUtils` | `utils::string_utils` |
| `query_builder.dfy` | `QueryBuilder` | `utils::query_builder::SearchQueryBuilder` |
| `response.dfy` | `Response` | `utils::response` |
| `pagination.dfy` | `Pagination` | `utils::pagination::PaginationParams` |
| `store.dfy` | `Store` | rows, keys, the lookups of `utils::database` |
| `filter.dfy` | `Filter` | conditions, placeholders, binds and their evaluation |
| `goods_table.dfy` | `Goods` | `GoodsSearchParams`, `GoodsTable` |
| `inventory_table.dfy` | `Inventory` | `InventorySearchParams`, `InventoryTable` |
| `request.dfy` | `Request` | query parameters, parsing, request validation |

## Model

| member | source | states |
|---|---|---|
| Validation.IsSafeInteger | src/utils.rs:11-16 | definition, no contract: non-empty, only ASCII digits and `-`, at most one `-`, no leading `--`; characterised by SafeIntegerCharacterization |
| Validation.IsSafeString | src/utils.rs:19-54 | definition, no contract: non-empty; `*` admitted; otherwise no listed pattern in the lower-cased text and every character allowed; its properties are SafeStringHasNoQuoteOrEscape and SafeStringIgnoresCase |
| Validation.IsSafeDecimal | src/utils.rs:57-66 | definition, no contract: digits, `.` and `-`, at most one of each, no leading `--`, no leading or trailing `.`; related to the integer check by SafeIntegerIsSafeDecimal |
| Validation.IsSafeDatetime | src/utils.rs:68-73 | definition, no contract: ASCII letters, digits and `-:TZ+.` only, 10 to 30 characters |
| Validation.SafeDatetimeIsShortAscii | src/utils.rs:68-73 | an admitted timestamp string is ASCII, between 10 and 30 characters, and holds no quote, semicolon or backslash |
| Validation.SafeIntegerCharacterization | src/utils.rs:11-16 | a safe integer is non-empty, only ASCII digits and `-`, with at most one `-` (the `--` test is then redundant) |
| Validation.SafeIntegerIsSafeDecimal | src/utils.rs:11-16 | every string the integer check admits is admitted by the decimal check |
| Validation.SafeStringHasNoQuoteOrEscape | src/utils.rs:19-54 | an admitted string contains no backslash, quote, double quote or semicolon |
| Validation.SafeStringIgnoresCase | src/utils.rs:19-54 | two strings with the same ASCII lower case are both admitted or both refused, so every keyword is refused in every spelling |
| Validation.KeywordRejectedInAnyCase | src/utils.rs:37-44 | one instance: `SeLeCt` is refused |
| Validation.ParseSafeInteger | src/utils.rs:76-83 | Ok exactly when the string is safe and the i32 parser accepts it; the value is the parser's; an unsafe string gives `Invalid <field> format`; a safe string the parser refuses gives `Invalid integer format for <field>` |
| Validation.ParseSafeDecimal | src/utils.rs:85-92 | the same for decimals; a parser failure gives `Invalid decimal format for <field>` |
| Validation.ParseSafeDatetime | src/utils.rs:94-101 | the same for timestamps; a parser failure gives `Invalid datetime format for <field>` with the ISO 8601 hint |
| Validation.ValidateSafeString | src/utils.rs:103-111 | Ok exactly when the string is safe; the empty string gives `<field> cannot be empty` and any other unsafe string `Invalid <field>` |
| Like.SurroundedMeansContains | src/tables/goods_table.rs:109-117 | `ILIKE '%' + literal + '%'` holds exactly when the column contains the literal, ignoring ASCII case |
| Like.LiteralsThenAnyMeansPrefix | src/tables/goods_table.rs:109-117 | `ILIKE literal + '%'` holds exactly when the column starts with the literal, ignoring ASCII case |
| Like.AnyStringMatchesAll | src/utils.rs:307-310 | the pattern `%` matches every value |
| StringUtils.ToSearchPattern | src/utils.rs:307-313 | definition, no contract: `*` becomes `%`; anything else has `%` and `_` escaped and is wrapped in `%`; its meaning is SearchPatternMeansSubstring |
| StringUtils.TwoReplacesEscapeEachChar | src/utils.rs:307-313 | the two chained `replace` calls escape every `%` and every `_` in one pass |
| StringUtils.EscapedParsesToLiterals | src/utils.rs:307-313 | an escaped input followed by `%` reads back as the input's characters as literals, then any string |
| StringUtils.SearchPatternMeansSubstring | src/utils.rs:307-313 | for an input other than `*` without backslashes, a value matches the search pattern exactly when it contains the input, ignoring case |
| StringUtils.StarPatternMatchesEverything | src/utils.rs:307-309 | the pattern built from `*` matches every value |
| StringUtils.SearchPatternLength | src/utils.rs:307-313 | the pattern's length is the input's + the number of `%` and `_` + 2 |
| StringUtils.SaturatingSub | src/utils.rs:320 | `saturating_sub`: the least natural number that, added to the subtrahend, reaches the minuend |
| StringUtils.Truncate | src/utils.rs:316-322 | a short input is returned unchanged; a long one fails exactly when `max_len - 3` (saturating) is not a character boundary, and otherwise becomes its first `max_len - 3` bytes followed by `...` |
| StringUtils.TruncateAscii | src/utils.rs:316-322 | on ASCII input truncation never fails; a long input becomes `max_len - 3` characters (saturating) plus `...`, at most `max_len` bytes once `max_len >= 3` |
| StringUtils.TruncatePanicsInsideCharacter | src/utils.rs:316-322 | a cut inside a multi-byte character makes the as-written `truncate` fail, where the corrected one returns `...` |
| StringUtils.TruncateAtCharBoundary | src/utils.rs:316-322 | a short input is returned unchanged; a long one becomes the prefix ending on the last character boundary at or below `max_len - 3`, plus `...` |
| StringUtils.TruncateAtCharBoundaryAgrees | src/utils.rs:316-322 | wherever the as-written `truncate` succeeds, the corrected one gives the same string |
| StringUtils.SanitizeForLog | src/utils.rs:325-331 | definition, no contract: `password`, `token`, `secret` replaced by `***` in turn; its properties are SanitizeRemovesSecrets and SanitizeKeepsCleanInput |
| StringUtils.SanitizeRemovesSecrets | src/utils.rs:325-331 | the sanitised text contains none of `password`, `token`, `secret` |
| StringUtils.SanitizeKeepsCleanInput | src/utils.rs:325-331 | text without those words is left unchanged |
| QueryBuilder.Placeholder | src/utils.rs:185 | a placeholder `$k` contains no `?` |
| QueryBuilder.SearchQueryBuilder.constructor | src/utils.rs:174-181 | a new builder has the base query, no conditions and a bind count of 0 |
| QueryBuilder.SearchQueryBuilder.AddCondition | src/utils.rs:183-188 | the count grows by one and is returned; the condition is appended with every `?` replaced by `$count`; the invariant bind count = number of conditions is kept |
| QueryBuilder.SearchQueryBuilder.AddOptionalCondition | src/utils.rs:190-197 | None changes nothing and returns None; Some behaves as `add_condition` |
| QueryBuilder.SearchQueryBuilder.Build | src/utils.rs:199-212 | the base query, then the conditions in order, then ` ORDER BY <order>` when one is given |
| QueryBuilder.SearchQueryBuilder.BindCount | src/utils.rs:214-216 | the bind count equals the number of conditions |
| Response.FormatErrorMessage | src/utils.rs:223-225 | definition, no contract: `{op}: {details}`; read back by ErrorMessageSplits |
| Response.FormatSuccessMessage | src/utils.rs:228-234 | definition, no contract: the 0, 1 and n messages; told apart by SuccessMessageInjective |
| Response.FormatDatabaseError | src/utils.rs:237-253 | definition, no contract: RowNotFound, the three constraint codes and the fallback; stated by DatabaseErrorMeaning |
| Response.ErrorMessageSplits | src/utils.rs:223-225 | the operation and the details can be read back from an error message |
| Response.SuccessMessageInjective | src/utils.rs:228-234 | for one operation, distinct counts give distinct messages (0, 1 and n are told apart) |
| Response.SuccessMessageNamesOperation | src/utils.rs:228-234 | a message for a positive count starts with the operation |
| Response.DatabaseErrorMeaning | src/utils.rs:237-253 | codes 23503, 23505 and 23514 get fixed messages independent of the operation; every other error ends with the operation's name |
| Response.ConstraintMessagesDistinct | src/utils.rs:244-247 | the three constraint messages are pairwise distinct |
| Pagination.New | src/utils.rs:344-349 | both fields absent |
| Pagination.Page | src/utils.rs:351-353 | the page, 1 by default |
| Pagination.PerPage | src/utils.rs:355-357 | 50 by default, capped at 1000 |
| Pagination.Limit | src/utils.rs:363-365 | the limit is the page size, and so never exceeds 1000 |
| Pagination.Offset | src/utils.rs:359-361 | definition, no contract: (page − 1, saturating) × per_page reduced modulo 2^32; its properties are FirstPageStartsAtZero, OffsetExactWithoutOverflow and NextPageStartsAfterLimit |
| Pagination.FirstPageStartsAtZero | src/utils.rs:359-361 | pages 0 and 1 start at offset 0 |
| Pagination.OffsetExactWithoutOverflow | src/utils.rs:359-361 | while the product fits in 32 bits, the offset is (page − 1, saturating) × per_page |
| Pagination.NextPageStartsAfterLimit | src/utils.rs:359-365 | the next page starts exactly `limit` rows later |
| Pagination.OffsetOverflowWitness | src/utils.rs:359-361 | page 4294969 with 1000 per page wraps to offset 704 instead of 4294968000 |
| Pagination.OffsetWide | src/utils.rs:359-361 | the exact offset, (page − 1, saturating) × per_page without wrap-around: below 1000 · 2^32, and the as-written offset is it reduced modulo 2^32; its properties are NextPageStartsAfterLimit, FirstPageStartsAtZero and OffsetExactWithoutOverflow |
| Store.Join | src/tables/inventory_table.rs:16-30 | a joined row carries the item's columns and its good's columns |
| Store.IndexOfGood | src/tables/goods_table.rs:235-242 | the first position holding the key, found exactly when the key exists |
| Store.FindGoodById | src/tables/goods_table.rs:235-242 | the good with that key, found exactly when it exists |
| Store.FindGoodByCode | src/tables/goods_table.rs:244-251 | a good with that exact material code, found exactly when one exists |
| Store.CodeLookupIsUnique | src/tables/goods_table.rs:244-251 | with unique codes, looking up a stored good's code returns that good |
| Store.FindItemByKey | src/tables/inventory_table.rs:429-451 | an item with that good and an equal expiry date (None equals only None), found exactly when one exists |
| Store.IndexOfItem | src/tables/inventory_table.rs:478-491 | the first position holding the item key, found exactly when it exists |
| Store.CountRefs | src/utils.rs:146-152 | zero exactly when no inventory row references the good |
| Filter.Number | src/tables/goods_table.rs:100-162 | condition k carries the column and operator of filter k and placeholder `$start+k+1` |
| Filter.Values | src/tables/goods_table.rs:172-222 | bind k is the value of filter k |
| Filter.PatternFilter | src/tables/goods_table.rs:176-186 | a text field is bound through `to_search_pattern` with an ILIKE condition |
| Filter.PushCondition | src/tables/goods_table.rs:104-107 | one `if` of the builder: the condition list stays the numbering of the filters seen so far and the counter their number |
| Filter.BindPattern | src/tables/goods_table.rs:176-186 | one `bind` step: the bind list stays the values of the filters seen so far; `*` binds nothing |
| Filter.CompiledMeansFilters | src/tables/goods_table.rs:98-224 | evaluating the numbered conditions with the binds holds exactly when every filter holds |
| Filter.QueryTextIgnoresValues | src/tables/goods_table.rs:98-166 | the SQL text depends only on which fields are present, never on their values |
| Filter.AllHoldConcat | src/tables/inventory_table.rs:131-226 | item conditions followed by goods conditions hold exactly when both groups hold |
| Goods.NewSearchParams | src/tables/goods_table.rs:59-74 | an empty filter that is not get-all |
| Goods.GoodsSearchParams.IsGetAll | src/tables/goods_table.rs:76-79 | definition, no contract: goods_name or material_code is `*`; its effect is GetAllIgnoresOtherFields |
| Goods.MatchesGoods | src/tables/goods_table.rs:104-162 | definition, no contract: every present field is satisfied by the good; the compiled query is tied to it by GoodsFiltersMeaning and SelectCompiled |
| Goods.GoodsFiltersMeaning | src/tables/goods_table.rs:104-162 | the compiled filters hold on a row exactly when the good satisfies every present field (ILIKE on the text fields, `=` on exact values, inclusive bounds) |
| Goods.IdentityMeaning | src/tables/goods_table.rs:104-117 | the goods_id, material_code and goods_name conditions mean the identity predicate |
| Goods.MeasuresMeaning | src/tables/goods_table.rs:119-132 | the price, volumn_l and mass_g conditions mean exact equality |
| Goods.VolumeMassMeaning | src/tables/goods_table.rs:134-147 | the volume bounds and minimum mass are inclusive ranges |
| Goods.MassPriceMeaning | src/tables/goods_table.rs:149-162 | the maximum mass and the price bounds are inclusive ranges |
| Goods.RangesAreInclusive | src/tables/goods_table.rs:134-162 | a bound equal to the good's own value admits it |
| Goods.PatternMatchIsSubstring | src/tables/goods_table.rs:109-117 | a text filter matches exactly the values that contain it, ignoring case |
| Goods.MatchingGoods | src/tables/goods_table.rs:98-224 | the matching goods in table order, which stays ascending |
| Goods.SelectCompiled | src/tables/goods_table.rs:98-224 | running the compiled query returns exactly the goods the parameters match |
| Goods.SearchResult | src/tables/goods_table.rs:92-225 | get-all returns every good; otherwise exactly the matching goods, ascending by key |
| Goods.GetAllIgnoresOtherFields | src/tables/goods_table.rs:94-96 | two get-all searches agree whatever their other fields, and return the whole table |
| Goods.CompileGoodsSearch | src/tables/goods_table.rs:98-166 | the condition list numbers the compiled filters from `$1`; the query is the base, the conditions and `ORDER BY goods_id ASC` |
| Goods.PushGoodsConditions | src/tables/goods_table.rs:104-162 | the twelve `if` blocks build the numbered condition list and leave the counter at its length |
| Goods.BindGoodsSearch | src/tables/goods_table.rs:172-222 | the bind chain produces the filters' values in condition order |
| Goods.SelectionKeepsUniqueCodes | src/tables/goods_table.rs:92-225 | a search result never holds two goods with one code |
| Goods.SortedRowMatchesKey | src/tables/goods_table.rs:235-242 | looking up a stored good's key returns that good |
| Goods.InsertGood | src/tables/goods_table.rs:253-282 | definition, no contract: get-or-create by material code; stated by InsertOutcome, InsertIsIdempotent and InsertKeepsTableValid |
| Goods.InsertOutcome | src/tables/goods_table.rs:253-282 | an existing code returns the stored good and changes nothing; otherwise one good is appended with the request's fields, the next key and both bases defaulting to 0 |
| Goods.InsertIsIdempotent | src/tables/goods_table.rs:253-260 | inserting a second request with the same code returns the first result and changes nothing |
| Goods.InsertKeepsTableValid | src/tables/goods_table.rs:253-282 | insertion keeps keys ascending and codes unique, and the code then finds the returned good |
| Goods.ApplyGoodsPatch | src/tables/goods_table.rs:296-311 | definition, no contract: COALESCE of each column; stated by PatchFieldByField and PatchKeepsKeyAndIsIdempotent |
| Goods.PatchFieldByField | src/tables/goods_table.rs:296-311 | each present patch field replaces the stored value and each absent field keeps it |
| Goods.PatchKeepsKeyAndIsIdempotent | src/tables/goods_table.rs:296-311 | a patch keeps the key, and applying it twice equals applying it once |
| Goods.PatchMatched | src/tables/goods_table.rs:295-325 | exactly the rows whose key was matched are patched; the others are unchanged |
| Goods.PatchTwice | src/tables/goods_table.rs:295-325 | patching two key lists one after the other equals patching their concatenation |
| Goods.PatchedTableKeepsShape | src/tables/goods_table.rs:295-325 | patching keeps every key in place and the order ascending |
| Goods.UpdateGoodRow | src/tables/goods_table.rs:296-321 | definition, no contract: one row's UPDATE: RowNotFound for a missing key, 23505 when the new code is another good's, else the patched row; its outcome is in UpdateWithCode |
| Goods.UpdateFrom | src/tables/goods_table.rs:295-325 | definition, no contract: the per-row updates in match order, stopping at the first error; stated by UpdateWithoutCodeSucceeds and UpdateWithCode |
| Goods.UpdateWithoutCodeSucceeds | src/tables/goods_table.rs:284-333 | a patch without a code never fails: the matched rows are patched and returned in match order |
| Goods.UpdateWithCode | src/tables/goods_table.rs:284-333 | a patch that sets a code fails with a unique violation exactly when two or more rows match or another good holds the code; the first row is then kept patched only when it did not conflict |
| Goods.Without | src/tables/goods_table.rs:361-364 | the table without the given keys, still ascending |
| Goods.FirstReferenced | src/tables/goods_table.rs:346-358 | the position of the first matched good that inventory still references, or the match count |
| Goods.DeleteFrom | src/tables/goods_table.rs:346-367 | definition, no contract: delete each match in turn, stopping with RowNotFound at the first referenced one; stated by DeleteOutcome and BlockedDeleteKeepsReferencedGood |
| Goods.DeleteOutcome | src/tables/goods_table.rs:335-370 | the goods before the first referenced one are deleted; Ok with all their keys exactly when none is referenced, otherwise RowNotFound |
| Goods.BlockedDeleteKeepsReferencedGood | src/tables/goods_table.rs:355-358 | the first referenced good and every later match stay in the table |
| Goods.DeleteKeepsReferences | src/tables/goods_table.rs:346-367 | deletion never leaves an inventory row pointing at a missing good |
| Goods.PartialDeleteWitness | src/tables/goods_table.rs:346-367 | deleting goods 1 and 2 while good 2 is referenced removes good 1 and still fails |
| Goods.DeleteAllOrNothing | src/tables/goods_table.rs:335-370 | a failed delete leaves the table unchanged |
| Goods.AtomicDeleteAgrees | src/tables/goods_table.rs:335-370 | the atomic delete gives the same answer as the as-written one, the same table on success and the original table on failure |
| Goods.GoodsTable.constructor | src/tables/goods_table.rs:88-90 | the repository uses the given store |
| Goods.GoodsTable.Search | src/tables/goods_table.rs:92-225 | returns the search result, ascending, and only stored rows |
| Goods.GoodsTable.GetAll | src/tables/goods_table.rs:227-233 | every good, ascending by key |
| Goods.GoodsTable.GetById | src/tables/goods_table.rs:235-242 | the good with that key, if any |
| Goods.GoodsTable.GetByMaterialCode | src/tables/goods_table.rs:244-251 | the good with that code, if any |
| Goods.GoodsTable.Insert | src/tables/goods_table.rs:253-282 | the store becomes the insert outcome; the next key advances only when a row was added; inventory is untouched |
| Goods.GoodsTable.Update | src/tables/goods_table.rs:284-333 | the store and the answer are the row-by-row update of the search result; an empty match returns `[]` |
| Goods.GoodsTable.UpdateMatches | src/tables/goods_table.rs:295-325 | the loop over the matches equals the row-by-row update |
| Goods.GoodsTable.Delete | src/tables/goods_table.rs:335-370 | the store and the answer are the row-by-row delete of the search result, partial completion included |
| Goods.GoodsTable.DeleteMatches | src/tables/goods_table.rs:346-367 | the loop over the matches equals the row-by-row delete |
| Goods.GoodsTable.DeleteAtomic | src/tables/goods_table.rs:335-370 | the corrected delete: the store and the answer are the all-or-nothing delete |
| Goods.GoodsTable.FirstReferencedMatch | src/tables/goods_table.rs:346-358 | the loop finds the first referenced match |
| Goods.GoodsTable.DeleteUnreferenced | src/tables/goods_table.rs:361-366 | removes the matched keys, returned in match order, and keeps the invariants |
| Goods.DeleteUnreferencedKeepsTable | src/tables/goods_table.rs:361-364 | removing an unreferenced good keeps the store's invariants |
| Inventory.NewInventorySearchParams | src/tables/inventory_table.rs:84-95 | an empty filter that is not get-all |
| Inventory.Joined | src/tables/inventory_table.rs:340-371 | with every reference present, one joined row per item, in item order |
| Inventory.JoinedIsSorted | src/tables/inventory_table.rs:340-371 | the join is ascending by item key |
| Inventory.KeysMeaning | src/tables/inventory_table.rs:131-150 | the item_id and quantity conditions mean equality and inclusive bounds |
| Inventory.ExpiryMeaning | src/tables/inventory_table.rs:152-165 | the date conditions mean equality and inclusive bounds on the expiry date |
| Inventory.InventorySearchParams.IsGetAll | src/tables/inventory_table.rs:97-99 | definition, no contract: the goods part is get-all; its effect is InventoryGetAllIgnoresOtherFields |
| Inventory.MatchesInventory | src/tables/inventory_table.rs:131-226 | definition, no contract: the item fields and the goods fields of the joined row both match; the compiled query is tied to it by InventoryFiltersMeaning and SelectJoinedCompiled |
| Inventory.InventoryFiltersMeaning | src/tables/inventory_table.rs:131-226 | item conditions then goods conditions hold on a joined row exactly when the parameters match it |
| Inventory.UndatedRowsFailDateFilters | src/tables/inventory_table.rs:152-165 | a row without an expiry date fails every date filter |
| Inventory.MatchingInventory | src/tables/inventory_table.rs:112-338 | the matching joined rows, ascending |
| Inventory.SelectJoinedCompiled | src/tables/inventory_table.rs:112-338 | running the compiled joined query returns exactly the matching rows |
| Inventory.InventorySearchResult | src/tables/inventory_table.rs:112-338 | get-all returns the whole join; otherwise exactly the matching joined rows |
| Inventory.InventoryGetAllIgnoresOtherFields | src/tables/inventory_table.rs:97-99 | get-all depends only on the goods part and ignores every inventory filter |
| Inventory.CompileInventorySearch | src/tables/inventory_table.rs:118-230 | the conditions number the item filters then the goods filters from `$1`; the query is the join, the conditions and `ORDER BY i.item_id ASC` |
| Inventory.PushItemConditions | src/tables/inventory_table.rs:131-165 | the seven item `if` blocks build the numbered conditions and leave the counter at their number |
| Inventory.BindInventorySearch | src/tables/inventory_table.rs:235-314 | the binds are the filters' values in condition order |
| Inventory.BindItemValues | src/tables/inventory_table.rs:235-262 | the item binds are the item filters' values |
| Inventory.GetByItemIdFrom | src/tables/inventory_table.rs:478-507 | the joined row with that key, or RowNotFound |
| Inventory.GetByItemIdAgreesWithJoin | src/tables/inventory_table.rs:478-507 | the lookup returns the same row as the join |
| Inventory.ResolveGoods | src/tables/inventory_table.rs:375-427 | a resolved good exists |
| Inventory.GoodsIdTakesPrecedence | src/tables/inventory_table.rs:375-382 | a present goods_id alone decides: an unknown one is RowNotFound whatever the material code |
| Inventory.MaterialCodeResolves | src/tables/inventory_table.rs:383-397 | without goods_id, the code resolves exactly when a good has it, to that good; otherwise RowNotFound |
| Inventory.NoGoodsReferenceNeverInserts | src/tables/inventory_table.rs:398-427 | without goods_id and material_code the insert always fails and changes nothing |
| Inventory.Flagged | src/tables/inventory_table.rs:453-475 | the created flag rides on the read-back row |
| Inventory.InsertItem | src/tables/inventory_table.rs:373-476 | definition, no contract: resolve the good, then get-or-create by (good, expiry date); stated by InsertItemOutcome and InsertItemIsIdempotent |
| Inventory.InsertItemOutcome | src/tables/inventory_table.rs:373-476 | a resolution error is returned unchanged; an item with the same good and expiry date is returned with `false`; otherwise one item with the request's quantity and date is appended and returned with `true` |
| Inventory.InsertItemKeepsTables | src/tables/inventory_table.rs:373-476 | the insert keeps the invariants, adds at most one row and keeps (good, expiry) keys unique |
| Inventory.InsertItemIsIdempotent | src/tables/inventory_table.rs:429-457 | a repeated insert for the same good and date returns the first item with `false` and changes nothing |
| Inventory.PatchItem | src/tables/inventory_table.rs:562-577 | definition, no contract: COALESCE of quantity and expiry date; stated by ItemPatchMeaning |
| Inventory.ItemPatchMeaning | src/tables/inventory_table.rs:562-577 | quantity and date are replaced when present and kept when absent; the keys never change; a stored date is never cleared; the patch is idempotent |
| Inventory.NoGoodsFieldsNoGoodsChange | src/tables/inventory_table.rs:524-559 | without goods fields the good row is not changed |
| Inventory.PatchGoodsRow | src/tables/inventory_table.rs:524-559 | a row with another key is kept; on a table with ascending keys, exactly the row with that key is patched and every other row is kept |
| Inventory.PatchItemRow | src/tables/inventory_table.rs:562-577 | a row with another key is kept; on a table with ascending keys, exactly the row with that key is patched and every other row is kept |
| Inventory.PatchItemsMatched | src/tables/inventory_table.rs:519-584 | exactly the matched items are patched |
| Inventory.PatchItemsTwice | src/tables/inventory_table.rs:519-584 | patching two key lists in turn equals patching their concatenation |
| Inventory.UpdateItemStep | src/tables/inventory_table.rs:519-583 | definition, no contract: one item's transaction: 23505 when the goods patch takes another good's code, else the goods row and the item row patched and the joined row read back; stated by UpdateItemStepOutcome |
| Inventory.UpdateItemsFrom | src/tables/inventory_table.rs:519-584 | definition, no contract: the per-item transactions in match order, stopping at the first error; stated by UpdateWithoutCodeSucceeds and UpdateNeverClearsExpiry |
| Inventory.UpdateItemStepOutcome | src/tables/inventory_table.rs:519-583 | one item's transaction fails exactly when the patch sets a code another good holds, and then changes nothing |
| Inventory.UpdateWithoutCodeSucceeds | src/tables/inventory_table.rs:509-587 | without a code the update succeeds, patches every matched item and its good, and returns the rows in match order |
| Inventory.UpdateNeverClearsExpiry | src/tables/inventory_table.rs:509-587 | the update keeps every item key and never clears an expiry date |
| Inventory.ItemsWithout | src/tables/inventory_table.rs:589-610 | the items without the given keys, still ascending |
| Inventory.DeleteItemsOutcome | src/tables/inventory_table.rs:589-610 | the matched items are gone, every other item stays, and the invariants hold |
| Inventory.InventoryTable.constructor | src/tables/inventory_table.rs:108-110 | the repository uses the given store |
| Inventory.InventoryTable.Search | src/tables/inventory_table.rs:112-338 | returns the search result, ascending, and only stored rows |
| Inventory.InventoryTable.GetAll | src/tables/inventory_table.rs:340-371 | the whole join, one row per item, ascending |
| Inventory.InventoryTable.GetByItemId | src/tables/inventory_table.rs:478-507 | the joined row with that key, or RowNotFound |
| Inventory.InventoryTable.Insert | src/tables/inventory_table.rs:373-476 | the store becomes the insert outcome; the next item key advances only when a row was added; goods are untouched |
| Inventory.InventoryTable.Resolve | src/tables/inventory_table.rs:375-427 | the branch chain yields exactly the resolution function's answer: goods_id first, then material_code, an unknown key being RowNotFound, the remaining branches ColumnNotFound |
| Inventory.InventoryTable.Update | src/tables/inventory_table.rs:509-587 | both tables and the answer are the per-item update of the search result; an empty match returns `[]` |
| Inventory.InventoryTable.UpdateMatches | src/tables/inventory_table.rs:519-584 | the loop over the matches equals the per-item update |
| Inventory.InventoryTable.UpdateOne | src/tables/inventory_table.rs:519-583 | one committed transaction: both tables become the step's outcome and the item keys are kept |
| Inventory.InventoryTable.RunPass | src/tables/inventory_table.rs:521-577 | the transaction's statements: a conflict when the code is taken, otherwise the patched good and item |
| Inventory.InventoryTable.Commit | src/tables/inventory_table.rs:579 | the transaction's tables become the store's |
| Inventory.InventoryTable.Delete | src/tables/inventory_table.rs:589-610 | exactly the matched items are removed and their keys returned in key order; goods are untouched |
| Inventory.InventoryTable.DeleteMatches | src/tables/inventory_table.rs:600-607 | the loop removes the matched keys in order |
| Request.GoodsQueryParams.HasAnyParams | src/request.rs:110-123 | definition, no contract: one of the 12 fields is present; restated over the field list by GoodsHasAnyParams |
| Request.InventoryQueryParams.HasAnyParams | src/request.rs:180-200 | definition, no contract: one of the 19 fields is present; restated over the field list by InventoryHasAnyParams |
| Request.ExtractGoodsQueryParams | src/request.rs:385-402 | definition, no contract: each of the 12 fields read from the map under its own name; stated by ExtractGoodsReadsOwnKeys and ExtractGoodsIgnoresOtherKeys |
| Request.ExtractInventoryQueryParams | src/request.rs:404-431 | definition, no contract: each of the 19 fields read from the map under its own name; stated by ExtractInventoryIgnoresOtherKeys and ExtractInventoryGoodsPart |
| Request.GoodsHasAnyParams | src/request.rs:110-123 | true exactly when one of the 12 fields is present |
| Request.InventoryHasAnyParams | src/request.rs:180-200 | true exactly when one of the 19 fields is present |
| Request.ExtractGoodsReadsOwnKeys | src/request.rs:385-402 | each field is the map's value under its own key |
| Request.ExtractGoodsIgnoresOtherKeys | src/request.rs:385-402 | a key outside the 12 names changes nothing |
| Request.ExtractInventoryIgnoresOtherKeys | src/request.rs:404-431 | a key outside the 19 names changes nothing |
| Request.ExtractInventoryGoodsPart | src/request.rs:404-431 | the inventory extraction's goods fields are the goods extraction |
| Request.ExtractGoodsHasAnyParams | src/request.rs:110-123 | extracted parameters are non-empty exactly when the map holds one of the 12 keys |
| Request.FirstError | src/request.rs:54-108 | no error exactly when every check passes |
| Request.FirstErrorIsFirst | src/request.rs:54-108 | the reported error is the first failing check's |
| Request.ParseGoodsQuery | src/request.rs:54-108 | definition, no contract: the four group parses chained with early return; stated by ParseGoodsQueryMeaning |
| Request.ParseInventoryQuery | src/request.rs:127-178 | definition, no contract: the item groups, then the goods parse; stated by ParseInventoryQueryMeaning |
| Request.ParseGoodsQueryMeaning | src/request.rs:54-108 | Err exactly when some field fails, with the first failing field's message; on Ok every absent field is None, each present one holds its parsed value, and the text fields are copied verbatim |
| Request.ParseInventoryQueryMeaning | src/request.rs:127-178 | the same for the 19 fields, inventory fields first; on Ok the goods part equals parsing the 12 goods fields alone |
| Request.ParseGoodsIdentityMeaning | src/request.rs:57-69 | goods_id, material_code and goods_name: first failure or their parsed values |
| Request.ParseGoodsExactMeaning | src/request.rs:71-81 | price, volumn_l and mass_g: first failure or their parsed values |
| Request.ParseGoodsBoundsMeaning | src/request.rs:83-97 | volume and mass bounds: first failure or their parsed values |
| Request.ParseGoodsPriceMeaning | src/request.rs:99-105 | price bounds: first failure or their parsed values |
| Request.ParseItemQuantitiesMeaning | src/request.rs:131-145 | item_id and quantities: first failure or their parsed values |
| Request.ParseItemExpiryMeaning | src/request.rs:147-157 | expiry dates: first failure or their parsed values |
| Request.ValidateAndParseGoods | src/request.rs:54-108 | the field-by-field assignments with early returns equal the parse |
| Request.ParseGoodsIdentityFields | src/request.rs:57-69 | the first three assignments equal their group's parse |
| Request.ParseGoodsExactFields | src/request.rs:71-81 | the exact-measure assignments equal their group's parse |
| Request.ParseGoodsBoundsFields | src/request.rs:83-97 | the bound assignments equal their group's parse |
| Request.ParseGoodsPriceFields | src/request.rs:99-105 | the price-bound assignments equal their group's parse |
| Request.ValidateAndParseInventory | src/request.rs:127-178 | the assignments with early returns equal the parse |
| Request.ParseItemQuantityFields | src/request.rs:131-145 | the item assignments equal their group's parse |
| Request.ParseItemExpiryFields | src/request.rs:147-157 | the date assignments equal their group's parse |
| Request.ValidateDescriptionFromMeaning | src/request.rs:208-212 | Ok exactly when every description line is safe; otherwise the error names the first unsafe line `description[i]` |
| Request.CheckDescription | src/request.rs:208-212 | the loop over the lines equals the description check |
| Request.ValidateCreateGood | src/request.rs:204-225 | definition, no contract: the string checks, then the sign rules; stated by ValidateCreateGoodMeaning |
| Request.ValidateUpdateGood | src/request.rs:229-272 | definition, no contract: the empty-patch rule, then the present fields; stated by ValidateUpdateGoodMeaning |
| Request.ValidateCreateInventory | src/request.rs:276-324 | definition, no contract: the goods-identification rule, quantity, then the present fields; stated by ValidateCreateInventoryMeaning |
| Request.ValidateUpdateInventory | src/request.rs:328-382 | definition, no contract: the empty-patch rule, then the present fields and quantity; stated by ValidateUpdateInventoryMeaning |
| Request.ValidateCreateGoodMeaning | src/request.rs:204-225 | Ok exactly when the strings are safe, price ≥ 0, volumn_l > 0 and mass_g > 0; each sign rule reports its own message in source order |
| Request.ValidateUpdateGoodMeaning | src/request.rs:229-272 | an all-absent patch is rejected first; Ok exactly when some field is present, the present strings are safe and the present measures respect the sign rules |
| Request.ValidateCreateInventoryMeaning | src/request.rs:276-324 | without goods_id and material_code, all four details must be present; then quantity ≥ 0; Ok exactly when these hold and the present strings and measures pass |
| Request.ValidateUpdateInventoryMeaning | src/request.rs:328-382 | an all-absent patch is rejected first; Ok exactly when some field is present, the strings and measures pass and a present quantity is ≥ 0 |
| Request.ValidatedDetailsOnlyInsertFails | src/request.rs:278-284 | a request that passes validation on the full-details path still fails goods resolution |

## Left out

- Transport and wiring. The HTTP routing, the handlers and response shaping in `src/server.rs`, configuration loading in `src/config.rs`, and pool construction and health checks in `src/database.rs` are not part of this model. They are I/O.
- Store.FindItemByKey: the lookup at `src/tables/inventory_table.rs:436-450` has no `ORDER BY`, so when several items share a good and an expiry date the database may return any of them; the model returns the one with the lowest key. Inventory.InsertItemOutcome and Inventory.InsertItemIsIdempotent inherit that choice. Such duplicates can arise: `update` can give one item the expiry date of another item of the same good, and no unique constraint forbids it.
- Integer widths. The `i32` keys and quantities and the integer bases are unbounded `int`; no operation of the core does arithmetic on them, so the width does not change any result.
- SQL execution. The store is in-memory rows. A compiled query is a pair of (conditions, binds), evaluated by `Filter` against a row; the SQL text itself is only compared for equality.
- ILIKE. It is made concrete as `%`/`_`/backslash patterns with ASCII case folding. PostgreSQL's locale-dependent case folding beyond ASCII is not modelled.
- `to_lowercase` in `is_safe_string` is ASCII lowering. The dangerous-pattern test gives the same answer either way. Only two non-ASCII characters lower into ASCII letters: U+0130 becomes `i` followed by U+0307, and U+212A (Kelvin sign) becomes `k`. No pattern contains `k`. No pattern contains U+0307 or ends in `i`, and every `i` in a pattern is followed by an ASCII letter, so the `i` from U+0130 cannot complete a match.
- Library parsers. `i32::parse`, `Decimal::from_str` and the chrono timestamp parser are partial function parameters (`Validation.Parsers`). Their grammars are not modelled.
- Decimals are `real` and timestamps are `int`. Range checks on decimal scale and precision are not modelled.
- `utils::database`. `exists_by_id`, `exists_by_string`, `get_id_by_string` and `count_by_foreign_key` are store lookups. `verify_table_access` is I/O.
- `utils::datetime`: `parse_flexible_date`, `is_expired` and `days_until_expiration`. They parse with chrono and read the clock, and the `tracing::warn!` about an expired insert goes with them.
- `PaginatedResponse::new`: its page count uses `f64` ceil. This is floating point.
- `utils::logging` and every `tracing` call.
- Concurrency and isolation. Every call runs sequentially. Each inventory transaction of `update` is one atomic step, and its `tx.begin`/`commit` are not modelled beyond that (`Inventory.InventoryTable.Commit`).
- Storage errors. A failing connection or statement is not modelled. The errors the model produces are the ones the code's logic can reach: RowNotFound, the unique violation 23505 and the missing-column error of the insert.
- Goods.GoodsTable.Update: the `get_by_id` read-back after the loop only verifies; its result is discarded, so it is not modelled.
- Request.ExtractGoodsReadsOwnKeys: it is proved that each field reads its own key and that other keys are ignored; a full round trip from parameters to a map and back is not stated.
- Pagination.Offset: the `u32` multiplication is modelled as it behaves in a release build (wrap-around); a debug build would panic instead.
- StringUtils.Truncate: inputs are UTF-8 bytes, and a cut off a character boundary (a panic in Rust) is `None`.

## Findings

| source | as written | input that shows it | evidently intended | confidence | as-written member | corrected member |
|---|---|---|---|---|---|---|
| src/utils.rs:316-322 | `truncate` slices the UTF-8 bytes at `max_len - 3`, which panics when that index falls inside a character | `"ééé"` (bytes C3 A9 C3 A9 C3 A9) with `max_len` 4: the cut at byte 1 is inside `é` | cut at the nearest character boundary at or below `max_len - 3` | not executed | StringUtils.TruncatePanicsInsideCharacter | StringUtils.TruncateAtCharBoundary |
| src/utils.rs:359-361 | `offset` multiplies two `u32` values, which wraps (or panics) once the product exceeds 2^32 − 1 | page 4294969, per_page 1000: offset 704 instead of 4294968000 | the exact product (page − 1) × per_page | not executed | Pagination.OffsetOverflowWitness | Pagination.OffsetWide |
| src/tables/goods_table.rs:346-367 | `delete` removes each matched good before checking the next, then fails at the first one still referenced, so earlier goods stay deleted while the caller gets an error | goods 1 and 2 both matched, an inventory row references good 2: good 1 is gone and the answer is RowNotFound | a delete that fails leaves the table unchanged | not executed | Goods.PartialDeleteWitness | Goods.GoodsTable.DeleteAtomic |
