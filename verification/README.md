# risk_data_hub core, modelled in Dafny

This project models the dimensional-data core of the risk data hub (a Django
application for exploring hazard and risk analyses on a map) and proves
properties of that model. The core covers four things:

- how an analysis's dimensions are bound to map-layer columns;
- how raw feature rows from the map server are reshaped into an ordered,
  labelled table;
- the small helpers the views use for request handling;
- the `queued` / `processing` / `ready` / `error` lifecycle that import jobs
  drive.

The modules follow the program's structure:

| module | file | what it models |
|---|---|---|
| `Base` | `base.dfy` | Python values and text helpers: `Option`, `Result` with the error conditions the code raises, scalars, ASCII `upper`/`lower`/`capitalize`, `join`, substring search, counting |
| `Sorting` | `sorting.dfy` | Python 2 ordering of sort keys (every int before every str; str ordered by code points), and `list.sort(key=...)` as a stable insertion sort |
| `Catalog` | `catalog.dfy` | `risks/models.py`: axis bindings and their resolution to layer columns (`axis_to_dim`, `axis_attribute`), the `DymensionInfo` axis helpers, `Exportable.export`, `RiskApp.description`, `get_parents_chain`, `AdditionalData.import_from_sheet` |
| `Features` | `features.dfy` | `FeaturesSource` in `risks/views.py`: query-parameter renaming, `get_dim_association`, `get_dymlist_field_mapping` |
| `Reshape` | `reshape.dfy` | `reformat_features`: projection, the composite order key, the stable sort and the optional capitalisation |
| `Views` | `views.dfy` | `get_context_url`, `get_related_analysis_type`, `is_user_allowed`, `EventView.get_viewparams`, `get_related_ra`, `removekey` |
| `Lifecycle` | `lifecycle.dfy` | the `Schedulable` mixin: state setters, `refresh_from_db` and `save` on an instance with a stored and an in-memory row |
| `Tasks` | `tasks.dfy` | the import jobs of `risks/tasks.py`; the outcome of each external command is an input |

A database table becomes a sequence of records. A query with no
`order_by` follows the model's `Meta.ordering` (analyses come by name); where
SQL leaves the order open, as for ties, rows keep store order. A feature is a map from property
names to scalars. Measures and other float cells are opaque values: they are
never compared or computed with.

## Model

| member | source | states |
|---|---|---|
| Catalog.Select | risks/models.py:818-820 | a filter keeps exactly the stored bindings that match the query |
| Catalog.OrderedSpec | risks/models.py:818-820 | `order_by('order')` returns the matching bindings rearranged, each as often as it was selected, in non-decreasing `order` |
| Catalog.FirstOnAxisIsFirst | risks/models.py:944-947 | the binding the loop over the ordered list returns at has the requested axis, and no earlier binding in the list has that axis |
| Catalog.FirstOnAxisMinimal | risks/models.py:944-947 | in a list ascending by `order`, the binding the loop returns for an axis has the least `order` among those on that axis |
| Catalog.AxisToDimSpec | risks/models.py:932-948 | for a stored binding, `axis_to_dim` succeeds and depends only on (analysis, axis); its result is the `layer_attribute` of a lowest-`order` binding of that analysis on that axis |
| Catalog.AxisToDimFallback | risks/models.py:913-948 | when no binding of the analysis has the axis, the result is `DIM[axis]` (x→dim1, y→dim2, z→dim3); any other axis is a lookup error |
| Catalog.AxisAttributeOfDim | risks/models.py:950-959 | `axis_attribute` is "d" followed by the resolved column without its first three characters (`dim<n>` → `d<n>`); it fails exactly when `axis_to_dim` does |
| Catalog.AxisValuesSpec | risks/models.py:818-832 | `get_axis_values` and `get_axis_order` list one value per binding of the (dimension, analysis) pair, the same values in the same positions, with orders non-decreasing; the bindings listed are the pair's selection rearranged; entry `i` of the order list is the value and order of one stored binding of the pair; a value is listed iff some such binding carries it |
| Catalog.AxisDescriptions | risks/models.py:842-856 | on success the description map is keyed by exactly the bound values |
| Catalog.DescriptionsOfStored | risks/models.py:842-856 | the descriptions of stored bindings never fail |
| Catalog.ExportDimensionSpec | risks/models.py:818-856 | a dimension's export always succeeds, carries its id and its ordered values, and its layer map is keyed by exactly those values |
| Catalog.ExportFieldsKeys | risks/models.py:162-176 | the exported keys are exactly the output names of the field set |
| Catalog.ExportFieldsValues | risks/models.py:162-176 | each output name maps to its resolved source attribute (the last pair wins when a name repeats) |
| Catalog.Export | risks/models.py:162-176 | `export` with no field set uses `EXPORT_FIELDS`; keys are the output names; a missing attribute gives None and a callable gives its result |
| Catalog.Describe | risks/models.py:88-93 | the label of the first matching app pair, or the name itself when none matches |
| Catalog.AppDescriptionSpec | risks/models.py:66-93 | the three registered apps have their fixed labels; any other name describes itself |
| Catalog.Chain | risks/models.py:736-743 | a division's chain of ancestors ends with the division itself and starts at a root |
| Catalog.ChainPrefixes | risks/models.py:736-743 | the chain of every member of a chain is the prefix before that member |
| Catalog.ChainLinks | risks/models.py:736-743 | consecutive chain members are parent and child, and a division is not among its own ancestors |
| Catalog.Ancestors | risks/models.py:736-743 | the ancestors run root-first, each the parent of the next, end with the direct parent, exclude the node, and are empty for a root |
| Catalog.GetParentsChain | risks/models.py:736-743 | the loop that collects parents and then reverses them returns exactly the ancestors |
| Catalog.SheetToTable | risks/models.py:1576-1586 | column names are the header row; row names are column 0 below the header; values are the remaining rows without column 0; an empty sheet is an error |
| Catalog.SheetRoundTrip | risks/models.py:1576-1586 | putting row names back in front of the values, under the header, rebuilds the sheet |
| Catalog.ImportFromSheets | risks/models.py:1572-1590 | one record per sheet, in sheet order, named after the sheet and holding that sheet's table; the import fails iff some sheet cannot be read, and then the records of the sheets before it stay created |
| Catalog.ImportTablesSpec | risks/models.py:1575-1589 | the import loop stops at the first sheet that fails, reports its error, and leaves one record for each earlier sheet, in order |
| Catalog.ImportFromSheetsAppend | risks/models.py:1575-1589 | importing sheets `a + b` is importing `a`, then, only if that went through, `b` with its records after those of `a` |
| Features.MappedName | risks/views.py:216-219 | exactly `loc`, `ht`, `an` and `evt` have a query-parameter name |
| Features.MappedNameInverse | risks/views.py:216-219 | the renaming is a bijection between URL argument names and query parameter names |
| Features.QueryParams | risks/views.py:221-227 | a parameter is present iff its URL argument was given, and it carries that argument's value |
| Features.QueryParamsKeepsMapped | risks/views.py:221-227 | every mapped URL argument appears under its new name with its value unchanged |
| Features.AxisNames | risks/views.py:229-231 | the column of every binding of a list is resolved without failure |
| Features.DimAssociation | risks/views.py:229-235 | an error always reports a number of distinct columns other than one |
| Features.DimAssociationSpec | risks/views.py:229-235 | success iff the pair has a binding and all its bindings resolve to one column, which is then the result; an unbound pair reports 0 columns |
| Features.DimAssociationOfColumn | risks/views.py:229-235 | a bound dimension whose axes all map to one column resolves to that column |
| Features.OtherDims | risks/views.py:241-244 | the list without the primary dimension: no entry has the primary's id, and every other entry keeps its multiplicity |
| Features.Columns | risks/views.py:241-245 | the columns of a dimension list, in list order; the first dimension that cannot be resolved gives the error |
| Features.FieldMapping | risks/views.py:237-246 | the primary's column first, then the other dimensions' columns in list order with the primary skipped; the layer list is the single base layer |
| Features.OtherDimsAppend | risks/views.py:241-244 | the filter keeps list order: it distributes over a split of the dimension list |
| Features.OtherDimsWithoutPrimary | risks/views.py:241-244 | a list that does not mention the primary keeps every entry |
| Reshape.Cells | risks/views.py:730-734 | the listed properties in order; a missing one raises, naming the first one missing |
| Reshape.OrderTerm | risks/views.py:710-721 | one term of the order sum: the order property times its magnitude, with a missing property counted as 0 |
| Reshape.OrderValue | risks/views.py:704-723 | the order key is 1000 × the first dimension's order plus the other dimensions' orders; an unreadable order is an error |
| Reshape.Line | risks/views.py:730-738 | a feature's row is its projection, capitalised when asked, keyed by its order; the row exists iff the feature has every property read |
| Reshape.Lines | risks/views.py:730-738 | one keyed row per feature, in feature order, iff every feature is complete |
| Reshape.Reformat | risks/views.py:688-745 | one output row per feature; the dimensions are the primary followed by the other dimensions |
| Reshape.ReformatSucceeds | risks/views.py:694-740 | reshaping succeeds iff every dimension resolves to a column and every feature has the properties read; an unresolved dimension reports an ambiguous axis |
| Reshape.ReformatDimensions | risks/views.py:694-743 | the exported dimensions are the exports of the primary and then the others, in order |
| Reshape.ReformatRows | risks/views.py:694-743 | the rows are the features' projections (capitalised when asked), rearranged by a stable ascending order of their keys, with the key dropped |
| Reshape.SortedLines | risks/views.py:730-740 | sorting the keyed rows gives each feature's row at the position of a stable order of its key |
| Reshape.CompositeOrderDecodes | risks/views.py:704-723 | while the other orders sum to less than 1000, the key decodes back to the first order (quotient) and the sum of the others (remainder) |
| Reshape.CompositeOrderLexicographic | risks/views.py:704-723 | under the same bound, comparing keys compares first orders, and then the others' sums |
| Reshape.CompositeOrderCollides | risks/views.py:704-723 | without that bound, features with different first orders can share a key |
| Reshape.CompositeOrderExample | risks/views.py:704-723 | orders [2,1] and [1,5] give keys 2001 and 1005, so the second feature sorts first |
| Reshape.CapitalizedKeysCompareAsText | risks/views.py:735-740 | with capitalisation the keys are compared as decimal text, so key 1000 sorts before key 2; without it the order is numeric |
| Reshape.ExampleCapitalizedOrder | risks/views.py:735-740 | two capitalised features with keys 2 and 1000 come out in reverse numeric order |
| Reshape.ExamplePlainOrder | risks/views.py:704-740 | the same two features without capitalisation come out in numeric key order |
| Reshape.ExampleCapitalizedCells | risks/views.py:736-737 | every cell becomes `str(cell).capitalize()`: first letter upper, the rest lower |
| Reshape.ExampleReformat | risks/views.py:688-745 | a two-dimension analysis reshapes two features into rows of the two dimension values followed by the measure |
| Reshape.TwoColumns | risks/views.py:694-698 | the column list of a primary and one other dimension is their two columns |
| Reshape.SortTwo | risks/views.py:740 | two rows already in key order keep their order |
| Reshape.SwapTwo | risks/views.py:740 | two rows out of key order are swapped |
| Base.Capitalize | risks/views.py:736-737 | `capitalize()` keeps the length, upper-cases the first character and lower-cases the others |
| Base.CapitalizeIntText | risks/views.py:736-737 | capitalising the decimal text of an order key leaves it unchanged |
| Base.ContainsAt | risks/views.py:943-944 | a substring test holds iff the needle occurs at some position |
| Sorting.KeyLeTotal | risks/views.py:740 | any two sort keys are comparable |
| Sorting.KeyLeTransitive | risks/views.py:740 | key comparison is transitive |
| Sorting.KeyLeAntisymmetric | risks/views.py:740 | keys that compare both ways are equal |
| Sorting.StableSort | risks/views.py:740 | the sort returns a sorted permutation of its input in which rows with equal keys keep their relative order |
| Sorting.StableSortIsStableOrder | risks/views.py:740 | the sorted list is the input rearranged by a stable order of its keys |
| Views.ContextPairs | risks/views.py:59-68 | the walk emits each key with its value, in key order, and stops at the first key that is missing or empty |
| Views.ContextUrl | risks/views.py:59-74 | the URL is None iff the first key of the walk is missing or empty |
| Views.ContextUrlFull | risks/views.py:59-74 | the full URL is the `app` and `loc` pairs followed by the short URL's path; it stops after `app` when `loc` is missing, and is None without `app` |
| Views.ContextUrlStopsEarly | risks/views.py:64-68 | a missing `at` ends the walk, so a later `an` is not emitted |
| Views.SwapPrefix | risks/views.py:952-963 | names starting `e_` become `r_` and vice versa, with the rest unchanged; other names have no counterpart |
| Views.SwapPrefixInvolution | risks/views.py:952-963 | swapping the prefix twice gives back the name |
| Views.Named | risks/views.py:955 | the registered types with the given name |
| Views.GetByName | risks/views.py:955-957 | no match gives None, one match gives it, and several matches raise |
| Views.RelatedAnalysisType | risks/views.py:952-963 | a result is a registered type whose name is the swapped name; None iff there is no swap or no type registered under it |
| Views.RelatedAnalysisTypeMutual | risks/views.py:952-963 | when a type's name is unique, the related type of its related type is the type itself |
| Views.HasGroupNamed | risks/views.py:756 | the owner is in the admin group iff the setting is set and some owner group has that name |
| Views.SharesGroup | risks/views.py:757 | some group of the owner has an id among the user's group ids |
| Views.IsUserAllowedSpec | risks/views.py:747-760 | access is refused iff there is an owner, the user is not a superuser, the admin group is set, the owner is in it, and the user shares no group with the owner |
| Views.OwnerIsAllowed | risks/views.py:747-760 | an owner can always see their own analysis |
| Views.UnsetAdminGroupAllowsAll | risks/views.py:754-759 | with no administrator group configured, no owner group matches the filter and every user is allowed |
| Views.TargetLevel | risks/views.py:602-603 | the listed level is the requested one or the next one down |
| Views.TargetLevelSpec | risks/views.py:602-603 | the geometry lookup is on iff the requested level itself is listed; the listed level is at least 2 iff the requested level is at least 1 |
| Views.LevelCodes | risks/views.py:606-608 | the codes of the divisions at the given level |
| Views.TargetCodes | risks/views.py:605-608 | a code is collected iff some event lists a division with that code at the target level |
| Views.Dedupe | risks/views.py:609 | `set()` leaves each collected code exactly once |
| Views.EventViewParams | risks/views.py:599-611 | the codes are distinct and are exactly those the events list at the target level; the event ids keep event order; the geometry flag is `level > 1` |
| Views.EventViewParamsExample | risks/views.py:599-611 | at level 1, two events listing the same province give that province once |
| Views.RowMatchIgnoresCase | risks/views.py:943-944 | the tag filter is case-insensitive in the event type |
| Views.Joined | risks/views.py:938-940 | the bindings that join an analysis to one of the dimension values, compared in upper case on both sides |
| Views.HitsCount | risks/views.py:937-945 | an analysis that passes the filters appears once per matching binding |
| Views.JoinRowsMembers | risks/views.py:937-945 | an analysis is a row of the join iff it passes the hazard, type, event-details and tag filters and some binding joins it to one of the values |
| Views.JoinRowsCount | risks/views.py:937-945 | a joined analysis appears as many times as it has matching bindings |
| Views.JoinRowsAppend | risks/views.py:937-945 | the join filters each analysis row independently and keeps the table's row order |
| Views.RelatedAnalysesByName | risks/models.py:581-584 | the related analyses come by ascending name, the model's default ordering, since the query names no order of its own |
| Views.RelatedAnalysesStable | risks/models.py:581-584 | the related analyses are the join rows rearranged by a stable ascending order of names: rows of equal name keep their join order |
| Views.RelatedAnalysesMembers | risks/views.py:937-945 | after ordering, an analysis is returned iff it passes the hazard, type, event-details and tag filters and some binding joins it to one of the values |
| Views.RelatedAnalysesCount | risks/views.py:937-945 | after ordering, a returned analysis appears as many times as it has matching bindings |
| Views.RenderSplits | risks/views.py:611 | the view-parameter text holds `adm_codes`, `risk_analysis`, `event_ids` and `actual_geom_lookup`, in that order, each as `name:value` between `;` separators, with the flag written `True` or `False`; splitting on `;` reads them back when no value holds a `;` |
| Views.RemoveKey | risks/views.py:947-950 | the copy lacks exactly the removed key and keeps every other value; a missing key raises |
| Views.QueryParamsWithoutEvent | risks/views.py:1032 | removing `evt` before renaming removes exactly `event_id` from the query parameters |
| Lifecycle.RefreshFromDb | risks/models.py:125-126 | a re-read discards in-memory changes and writes nothing |
| Lifecycle.Save | risks/models.py:153-156 | a save writes the whole in-memory row |
| Lifecycle.SetState | risks/models.py:153-156 | `set_state` changes the in-memory state; only with `save` is the row written, and then whole |
| Lifecycle.SetAndSave | risks/models.py:136-151 | a setter re-reads, sets and saves: the stored row differs from the previous one in its state only, with one write |
| Lifecycle.SetQueued | risks/models.py:145-147 | after `set_queued` the stored state is queued |
| Lifecycle.SetProcessing | risks/models.py:149-151 | after `set_processing` the stored state is processing |
| Lifecycle.SetReady | risks/models.py:141-143 | after `set_ready` the stored state is ready |
| Lifecycle.SetError | risks/models.py:136-138 | after `set_error` the stored state is error |
| Lifecycle.Schedule | risks/models.py:125-128 | from any state, `schedule` leaves the row queued before dispatch, with its other fields as stored |
| Tasks.RunCommand | risks/tasks.py:60-66 | the command's effect reaches the stored row and not the in-memory copy |
| Tasks.ImportRiskDataJob | risks/tasks.py:52-76 | an unknown analysis raises with nothing written; success writes processing, then the data file, then ready; failure overwrites the command's changes with the copy read earlier, ends in error and raises with the common prefix |
| Tasks.PickHazardSet | risks/tasks.py:100-104 | the first hazard set found is linked; with none found the link is unchanged |
| Tasks.ImportRiskMetadataJob | risks/tasks.py:83-112 | success saves the metadata file and the picked hazard set and ends ready; failure keeps the command's changes, ends in error and raises |
| Tasks.CreateRiskAnalysisJob | risks/tasks.py:20-45 | a failing command or lookup raises with nothing written; a save stores the descriptor file; an integrity error is swallowed; any other save failure ends in error and raises |
| Tasks.ImportRiskData | risks/tasks.py:48-50 | the analysis is queued before the job runs, after any earlier writes |
| Tasks.ImportRiskMetadata | risks/tasks.py:78-80 | the metadata import also queues the analysis first |
| Tasks.EventImportJob | risks/tasks.py:147-179 | event imports change no state and only raise, with the common prefix, when the command fails |
| Tasks.ImportRiskDataLifecycle | risks/tasks.py:48-76 | a data import writes queued, processing, processing, then ready or error; it ends ready iff nothing is raised, and never writes ready on failure |
| Tasks.ImportRiskMetadataLifecycle | risks/tasks.py:78-112 | a metadata import writes queued, processing, then processing and ready, or error alone; it ends ready iff nothing is raised |
| Tasks.DataFileBeforeReady | risks/tasks.py:67-70 | every ready row a data import writes carries the final file name, and so does the write before it |
| Tasks.FailureKeepsFields | risks/tasks.py:52-112 | on failure the data import restores the fields read before the command, while the metadata import keeps what the command wrote |

## Behaviour worth noting

- The dimension list of `reformat_features` drops only entries whose id is
  the primary's (risks/views.py:694). Other repeated entries stay, and each
  one gets its own column.
- The tag match of `get_related_ra` uses `icontains` (risks/views.py:944), so
  it ignores case.
- `get_related_ra` names no order, so its rows come by analysis name
  (risks/models.py:584). The loop that merges their values
  (risks/views.py:1027-1042) overwrites per match, so the last analysis by
  name wins.
- With orders [2,1] and [1,5] the composite keys are 2001 and 1005
  (risks/views.py:720).

## Left out

- Django ORM queries, transactions and persistence: tables are sequences of records, and `refresh_from_db`/`save` are the two rows of an instance.
- The `UPPER` lookup is modelled as ASCII upper case on both sides. Non-ASCII case mapping is left out.
- Ties in `order_by('order')` come in store order. The rows of the join behind `get_related_ra` come in the analysis table's order before the default ordering by name is applied.
- Views.RelatedAnalyses: names are compared by code point, as under a byte-order collation. Other database collations are not modelled.
- The GeoServer/WFS client (`get_features`, `get_features_base`): features are an input sequence of property maps.
- Celery dispatch (`apply_async`, `_run_scheduled`), email, and concurrency between jobs. `call_command` is reduced to its effect on the analysis row and the message of its exception.
- PDF generation, file storage, temporary files and image uploads.
- xlrd workbook reading: a sheet is its 2-D grid of cells.
- Django admin, the JSX client components, URL reversing, `cache_page` and JSON response building.
- Float measures: value cells are opaque and never computed with.
- `FurtherResource` query builders: thin ORM wrappers.
- Features.DimAssociation: returns only the column. The first binding that `get_dim_association` also returns is unused by every modelled caller.
- Reshape.OrderTerm: an order property that is a string or a boolean gives `BadOrderValue`. Python instead repeats a string `mag` times before `int()`, so a string of digits parses, and turns a boolean into 0 or `mag`. A float raises in both, since `int('1500.0')` is a ValueError.
- Catalog.AxisDescriptions: the exported resource of each binding is left out. The contract states the keys only.
- Base.Capitalize: ASCII only. A `str()` of a non-ASCII unicode cell, which raises in Python 2, is not modelled.
- Views.EventViewParams: the level is an integer argument, so the `int(adm_level)` parse is left out. The iteration order of `set()` is not modelled; the contract states only that the codes are distinct and which codes they are.
- The second `get_viewparams` (risks/views.py:915) belongs to another view and is not part of this model.
- Views.RelatedAnalysesCount: assumes the analysis rows are distinct, as rows of one table are. Views.JoinRowsCount assumes the same.
- Views.IsUserAllowed: the request is reduced to its user, and the admin-group setting is a parameter.
