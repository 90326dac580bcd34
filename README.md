# Link-header column builder for st-aggrid, modelled in Dafny

`st_aggrid/link_header_builder.py` builds ag-Grid column definitions whose header
shows a link icon. The model covers everything in that file:

- `LinkHeaderBuilder.create_link_column` builds one column. It merges the four default
  behaviour flags under the caller's keyword overrides. It then unpacks that merged
  block after the column's own `field`, `headerName` and `headerComponentParams`.
- `LinkHeaderBuilder.create_link_columns_from_dict` builds one column per
  `{field: url}` entry. The header name of each column is
  `field.replace('_', ' ').title()`.
- `add_link_headers_to_grid_options` patches these columns into a caller's grid
  options in place:
  - it creates `columnDefs` when that key is missing;
  - for each link field in order, it updates the first entry carrying that `field` (`dict.update`);
  - when no entry carries the field, it appends the column instead.
- `create_link_column` and `create_link_columns` are thin wrappers.

Modules:

- `Values` (`values.dfy`): JSON-like values, column definitions, link configurations.
- `Text` (`text.dfy`): `str.replace` and `str.title` on ASCII text.
- `LinkHeaderBuilder` (`link_header_builder.dfy`): the two static methods.
  - `CreateLinkColumn` and `LinkColumns` are the pure definitions.
  - `CreateLinkColumnsFromDict` is the loop, proved equal to `LinkColumns`.
- `ColumnDefs` (`column_defs.dfy`): the meaning of the patch, stated on values.
  - `Upsert` is the step for one field and `UpsertAll` the whole pass.
  - `Patched` and `Absent` describe the outcome independently of the order of steps.
  - Idempotence is proved here.
- `LinkHeaders` (`link_headers.dfy`): the imperative parts.
  - `GridOptions` is a class whose fields the patch updates in place.
  - `FindField` is the scan with `break`, `PutColumn` the update-or-append step,
    `PutColumns` the loop over the batch.
  - `AddLinkHeadersToGridOptions` is the patch itself; the two wrappers are also here.

On override precedence: a keyword override named `headerName` or
`headerComponentParams` replaces the builder's own value, because the merged
`column_config` is unpacked last (line 55). `field` can never be overridden, because
passing it again as a keyword is a `TypeError`.

## Model

| member | source | states |
|---|---|---|
| Text.ReplaceUnderscores | st_aggrid/link_header_builder.py:79 | `replace('_', ' ')`: same length, every underscore becomes a space, every other character is kept, and no underscore remains |
| Text.TitleFrom | st_aggrid/link_header_builder.py:79 | the `str.title` scan from a position on: same length, non-letters kept, a letter lower-cased when the ORIGINAL previous character is a letter and upper-cased otherwise |
| Text.TitleCase | st_aggrid/link_header_builder.py:79 | `str.title` (ASCII): same length, non-letters unchanged, a letter is the upper-case form of itself exactly when it starts a word (first, or after a non-letter) and the lower-case form otherwise |
| Text.DisplayName | st_aggrid/link_header_builder.py:79 | the derived header name has the field's length, no underscore, and a space wherever the field had an underscore |
| Text.TitleCaseIdempotent | st_aggrid/link_header_builder.py:79 | title-casing an already title-cased name changes nothing |
| Text.UserNameExample | st_aggrid/link_header_builder.py:79 | the field `user_name` gets the header name `User Name` |
| Text.ReplaceExample | st_aggrid/link_header_builder.py:79 | `user_name` with underscores replaced is `user name` |
| Text.TitleExample | st_aggrid/link_header_builder.py:79 | `user name` title-cased is `User Name` |
| Text.TitleExampleFirstWord | st_aggrid/link_header_builder.py:79 | the first word of `user name` becomes `User ` (capital at the start, lower case after a letter) |
| Text.TitleExampleSecondWord | st_aggrid/link_header_builder.py:79 | the second word becomes `Name`: the letter after the space starts a word |
| LinkHeaderBuilder.HeaderParams | st_aggrid/link_header_builder.py:50-54 | the `headerComponentParams` block has exactly the keys `innerHeaderComponent` (the tag `linkHeaderComponent`), `url` and `headerName`, holding the url and the header name |
| LinkHeaderBuilder.CreateLinkColumn | st_aggrid/link_header_builder.py:17-58 | the column always carries `field` as given, and every override key with its value unchanged; the full key set and every other value (including the defaults of lines 37-42) are stated by `CreateLinkColumnContents` and `CreateLinkColumnDefaults` |
| LinkHeaderBuilder.CreateLinkColumnContents | st_aggrid/link_header_builder.py:37-56 | the column's keys are the seven builder keys plus the override keys; every override value appears unchanged; overrides beat the default flags and also `headerName` and `headerComponentParams`; `field` is always the argument; absent overrides leave the builder's values |
| LinkHeaderBuilder.CreateLinkColumnDefaults | st_aggrid/link_header_builder.py:37-56 | with no overrides the column is exactly `field`, `headerName`, the `headerComponentParams` block (`linkHeaderComponent`, url, header name), `sortable`, `filter`, `resizable` true and `suppressHeaderContextMenu` false |
| LinkHeaderBuilder.LinkColumn | st_aggrid/link_header_builder.py:79-86 | the column made for one entry carries that entry's field under `field` |
| LinkHeaderBuilder.LinkColumns | st_aggrid/link_header_builder.py:75-88 | every configured field is a key of the batch |
| LinkHeaderBuilder.LinkColumnsKeys | st_aggrid/link_header_builder.py:75-88 | the batch's keys are exactly the configured fields |
| LinkHeaderBuilder.LinkColumnsAt | st_aggrid/link_header_builder.py:77-86 | each configured field maps to `create_link_column(field, title(replace(field)), url, overrides)` |
| LinkHeaderBuilder.UserNameColumn | st_aggrid/link_header_builder.py:77-86 | the batch entry for `user_name` has `headerName` `User Name` |
| LinkHeaderBuilder.CreateLinkColumnsFromDict | st_aggrid/link_header_builder.py:60-88 | the loop that fills a fresh dict returns exactly `LinkColumns` of the configuration and overrides |
| ColumnDefs.Matches | st_aggrid/link_header_builder.py:120 | `col.get("field") == field`: an entry without a `field` key matches no field |
| ColumnDefs.MatchesOneField | st_aggrid/link_header_builder.py:120 | an entry matches at most one field |
| ColumnDefs.FirstIndex | st_aggrid/link_header_builder.py:118-122 | the index the scan stops at is in range, matches the field, and no earlier entry matches; when there is none, no entry matches (entries without `field` never match) |
| ColumnDefs.Upsert | st_aggrid/link_header_builder.py:118-129 | one field's update-or-append grows the list by at most one entry and leaves every entry not carrying the field unchanged; `UpsertFirstMatch` and `UpsertNoMatch` state the two cases exactly |
| ColumnDefs.UpsertFirstMatch | st_aggrid/link_header_builder.py:124-126 | a present field: only its first matching entry changes and becomes the old entry merged with the new column (new keys win, other keys such as `pinned` stay); the length and every other entry are unchanged |
| ColumnDefs.UpsertNoMatch | st_aggrid/link_header_builder.py:127-129 | an absent field: the column goes at the end and the existing entries keep their order |
| ColumnDefs.UpsertAll | st_aggrid/link_header_builder.py:116-129 | the pass never shrinks the list and adds at most one entry per link field |
| ColumnDefs.UpsertAllStep | st_aggrid/link_header_builder.py:116-129 | the pass over one more field is one more update-or-append step |
| ColumnDefs.UpsertKeepsOtherMatches | st_aggrid/link_header_builder.py:124-129 | a step never changes which field an existing entry carries, so other fields' first matches do not move |
| ColumnDefs.Patched | st_aggrid/link_header_builder.py:124-126 | reference outcome for the original entries: a list of the same length, defined index by index (an entry is merged with its field's column exactly when it is that field's first match); `UpsertAllShape` proves the pass equal to it |
| ColumnDefs.Absent | st_aggrid/link_header_builder.py:127-129 | reference outcome for the appended part, defined as the columns of the fields no entry carried, in link order: at most one per field; `AbsentCount` gives its exact length |
| ColumnDefs.UpsertAllShape | st_aggrid/link_header_builder.py:116-129 | after the pass, the original entries come first: each is patched exactly when it is the first entry carrying a link field. The columns of link fields no entry carried follow, in link order |
| ColumnDefs.FreshColumnsInOrder | st_aggrid/link_header_builder.py:116-129 | patching an empty list yields the link columns in link-configuration order |
| ColumnDefs.AbsentCount | st_aggrid/link_header_builder.py:127-129 | one column is appended for each link field no entry carried |
| ColumnDefs.UpsertAllLength | st_aggrid/link_header_builder.py:116-129 | the new length is the old length plus the number of link fields not previously present |
| ColumnDefs.UnmatchedEntriesUntouched | st_aggrid/link_header_builder.py:119-120 | an entry that carries no link field, or no `field` at all, comes out unchanged |
| ColumnDefs.SettledIsFixpoint | st_aggrid/link_header_builder.py:116-129 | when every link field's first match already holds its column, the pass changes nothing |
| ColumnDefs.UpsertAllSettles | st_aggrid/link_header_builder.py:116-129 | after the pass, every link field's first match holds that field's column |
| ColumnDefs.UpsertAllIdempotent | st_aggrid/link_header_builder.py:107-131 | running the pass twice gives what running it once gives |
| LinkHeaders.GridOptions.constructor | st_aggrid/link_header_builder.py:92 | grid options hold the given top-level keys and, when given, a `columnDefs` list |
| LinkHeaders.BatchSuitsPatch | st_aggrid/link_header_builder.py:111-116 | the batch built from a link configuration has distinct fields, each mapped to a column carrying that field |
| LinkHeaders.PatchOutcome | st_aggrid/link_header_builder.py:111-129 | for the batch built from a link configuration, the pass equals `Patched` followed by `Absent` and grows the list by the number of new link fields |
| LinkHeaders.FindField | st_aggrid/link_header_builder.py:118-122 | the scan with `break` returns exactly `FirstIndex` |
| LinkHeaders.PutColumn | st_aggrid/link_header_builder.py:118-129 | one field's update-or-append changes `columnDefs` to `Upsert` of the old list and leaves the other keys alone |
| LinkHeaders.PutColumns | st_aggrid/link_header_builder.py:116-129 | the loop over the batch leaves `columnDefs` equal to `UpsertAll` of the old list, one step per field in the batch's order, and the other keys alone |
| LinkHeaders.AddLinkHeadersToGridOptions | st_aggrid/link_header_builder.py:91-131 | returns the same object. Afterwards `columnDefs` exists and the other top-level keys are unchanged. `columnDefs` is `UpsertAll` of the old list, equivalently `Patched` followed by `Absent`, and its length grows by the number of new link fields |
| LinkHeaders.AddLinkHeadersTwice | st_aggrid/link_header_builder.py:107-131 | calling the patch twice with the same configuration and overrides leaves `columnDefs` as one call leaves it |
| LinkHeaders.CreateLinkColumnWrapper | st_aggrid/link_header_builder.py:135-137 | the wrapper returns the builder's column: builder keys plus override keys, `field` the argument, every override kept |
| LinkHeaders.CreateLinkColumns | st_aggrid/link_header_builder.py:140-142 | the wrapper returns the builder's batch, keyed by exactly the configured fields |

## Left out

- Unicode casing: `str.title` is modelled on ASCII letters only. Any other character counts as uncased and is kept as it is.
- Floating-point values: they are not among the modelled column values.
- Key insertion order inside one column-definition dict: a column is a `map`. The order of the `columnDefs` list and the iteration order of the link configuration are modelled.
- Object identity and aliasing: columns and entries are values.
  - `dict.update` on an entry that appears twice in the list, or is shared with other code, would change every alias. The model changes only the list position.
  - Likewise, the appended column is the same object as the one in the returned batch; the model keeps copies.
- The `TypeError` Python raises for a keyword override that repeats a parameter name is not modelled as an error. It appears as a precondition instead:
  - `field`, `header_name`, `url` (`ColumnKwargs`). The batch and the grid patch demand this only for a non-empty link configuration (`EntryKwargs`), because the error arises only when `create_link_column` is called;
  - `link_config` at the batch level (`BatchKwargs`);
  - `grid_options` at the outer level (`GridKwargs`).
- Ill-typed inputs are excluded by the types: a `columnDefs` value that is not a list, or an entry that is not a dict. In Python the outcome depends on the value. `enumerate` on a non-iterable raises `TypeError`. A non-dict entry raises `AttributeError` at `col.get` only if the scan reaches it before a match.
- `add_link_headers_to_grid_options` iterates over the built batch (`link_columns.items()`). The model iterates over the configured fields and looks each column up in the batch. The two orders agree, because a dict keeps its insertion order.
- The link configuration is a sequence of `(field, url)` pairs with distinct fields, mirroring a Python dict.
- The unused `JsCode` import (line 9).
- `st_aggrid/frontend/src/components/LinkHeaderComponent.tsx` is not part of this model. It is browser UI that renders the header, measures text and calls grid APIs.
- `build_sdk.py` is not part of this model. It is build and file-system scripting.
- `st_aggrid/__init__.py` is not part of this model. It holds re-exports only.
