# Product search dashboard — a Dafny model

A small Streamlit dashboard keeps a fixed product catalogue as a nested
mapping: category, then item, then the item's attributes. When it starts,
it flattens the mapping into a table of records. Each record gets its
category and a parsed `last_updated` date.

The dashboard then offers:

- a category and price filter;
- a sort on one column, ascending or descending;
- a case-insensitive search on name or company. A non-blank search ignores the filters.
- the sidebar figures: the number of products and their average price;
- a detail view that looks a product up by name.

This project models those steps over immutable Dafny sequences and proves what each one promises.

Modules:

- `Results`: a `Result` type. Its errors stand for the exceptions the Python code would raise (`KeyError` for a column the table lacks, `IndexError`, and a date that does not parse).
- `Dates`: calendar dates, their lexicographic order, and a strict `YYYY-MM-DD` parser and formatter that are inverses of each other.
- `Catalog`: the nested catalogue `Products` and flattening:
  - `Flatten` is the specification;
  - `LoadData` is the nested-loop method proved equal to it;
  - lemmas give the layout of the flat table.

  The companion module `Sample` holds the seven flattened records of the program's own data.
- `Seqs`: `Where`, an order-preserving selection of the elements that satisfy a predicate. It is the Dafny form of a boolean-mask selection on a table.
- `Filtering`:
  - column names, with `KeyError` for an unknown name;
  - the per-column orders;
  - an insertion sort specified as a sorted permutation;
  - `FilterData`.
- `Searching`: Python-style `strip`, ASCII lower-casing, substring search, the search mask, and the choice between search result and filtered table.
- `Summary`: the total count, the truncated average price, the price bounds behind the slider's defaults, and the first-match detail lookup.
- `Examples`: the dashboard's results on the program's own catalogue.

A catalogue that flattens to no records gives `pd.DataFrame([])` at app.py:39, a table with no columns at all. `Catalog.CheckColumn` models a column lookup: on that table it fails with a `KeyError` naming the column. Every operation that reads a column checks it first: the filter (`category`, app.py:45), the search mask (`name`, app.py:97), and the sidebar figures and the detail lookup. In the program, the category choices at app.py:64 are the first to fail.

`sort_values` at app.py:48 uses pandas' default quicksort, which is not stable, so the model proves only "sorted, and a permutation of the filtered rows". `SortedPermutationUnique` pins the order completely when no two kept rows tie on the key.

## Model

| member | source | states |
|---|---|---|
| Catalog.LoadData | app.py:30-40 | The nested loops over categories and items build exactly `Flatten(p)`: the records in category order, then item order. The first date that does not parse aborts with that error. |
| Catalog.MakeRecord | app.py:35-37 | The record is the item's name, price and company, plus the enclosing category and the parsed date. It exists exactly when the date parses. Otherwise the error names the date string. |
| Catalog.FlattenShape | app.py:32-38 | A successful flattening has one record per (category, item) pair. Item `j` of category `i` sits at `Offset(p, i) + j`, and is made from that item with that category. |
| Catalog.FlattenAt | app.py:32-38 | The pointwise form of the layout: for each item position, the record at its offset is built from that item. |
| Catalog.FlattenLength | app.py:32-38 | There are as many records as there are (category, item) pairs. |
| Catalog.FlattenItemsShape | app.py:34-38 | One category's items give one record each, in item order, and each carries that category. |
| Catalog.FlattenCategories | app.py:36 | Every record's category is one of the catalogue's category keys. |
| Catalog.FlattenFailsOnlyOnDates | app.py:37 | Flattening succeeds exactly when every date string parses. A failure reports one of the catalogue's date strings. |
| Catalog.ItemsFailOnlyOnDates | app.py:34-38 | The same within one category. |
| Catalog.FlattenErrPersists | app.py:32-38 | Once a prefix of the catalogue fails, the whole flattening fails with that error. This is the early exit of `LoadData`. |
| Catalog.FlattenItemsErrPersists | app.py:34-38 | The same for a prefix of one category's items. |
| Sample.LoadProducts | app.py:9-23 | Flattening the program's catalogue gives the seven records (Laptop, Smartphone, Earbuds, Refrigerator, Washing Machine, Keyboard, Mouse) in that order, with their categories and dates. |
| Sample.LoadElectronics | app.py:10-14 | The Electronics items give Laptop, Smartphone and Earbuds. |
| Sample.LoadAppliances | app.py:15-18 | The Appliances items give Refrigerator and Washing Machine. |
| Sample.LoadAccessories | app.py:19-22 | The Accessories items give Keyboard and Mouse. |
| Sample.Parses20251010 | app.py:11 | The Laptop's date string parses to 10 October 2025. |
| Dates.ParseDate | app.py:37 | A parsed date is a valid calendar date. A string that does not parse is reported as a parse error of that string. |
| Dates.FormatThenParse | app.py:37 | Every valid date, written as `YYYY-MM-DD`, parses back to itself. |
| Dates.ParseThenFormat | app.py:37 | Every string that parses is the `YYYY-MM-DD` form of its date. |
| Dates.NumberOfPadDigits | app.py:37 | A number written in a fixed width of digits reads back as itself. |
| Dates.PadDigitsOfNumber | app.py:37 | A digit string is the padded form of its value. |
| Dates.DaysInMonth | app.py:37 | A month has 28 to 31 days. |
| Dates.DateLeTotalOrder | app.py:37 | The order of dates is reflexive, total, antisymmetric and transitive. |
| Seqs.Where | app.py:44-47 | A boolean-mask selection keeps at most the input's rows. It keeps exactly the rows the mask accepts, each as often as in the input. |
| Seqs.WhereSingle | app.py:44-47 | A single row is kept exactly when the mask accepts it. |
| Seqs.WhereAppend | app.py:44-47 | Selection distributes over concatenation, so it keeps the input order. |
| Seqs.WhereKeepsAll | app.py:44-47 | Selection returns the input unchanged exactly when the mask accepts every row. |
| Seqs.WhereAgrees | app.py:96-100 | Two masks that agree on every row select the same rows. |
| Filtering.FilterRows | app.py:44-47 | A record is kept exactly when its category is among those chosen and `lo <= price <= hi`, both ends inclusive. Each is kept as often as it occurs. |
| Filtering.FilterData | app.py:42-48 | The result exists exactly when the table has records and `sort_by` names a column. On the empty table it is a `KeyError` for `category`; otherwise, with an unknown key, a `KeyError` for that key. The rows are in order on that column, and are a permutation of the filtered rows. The result is empty when no category is chosen or the price range is empty. |
| Filtering.SortChoicesAccepted | app.py:69 | Each of the three sort keys the dashboard offers names a column. With any of them, `filter_data` fails only on the empty table. |
| Filtering.ColumnNamed | app.py:48 | A known column name gives that column. An unknown name is a `KeyError` naming it, and no column has that name. |
| Filtering.ColumnNamedOfName | app.py:48 | Every column is found under its own name. |
| Filtering.SortRows | app.py:48 | The sort returns a sequence in order on the column, ascending or descending, and a permutation of its input. |
| Filtering.Insert | app.py:48 | Inserting into a sorted sequence keeps it sorted and adds exactly that record. |
| Filtering.InOrderLaws | app.py:48 | Each column order, in either direction, is total and transitive. |
| Filtering.StrLeTotal | app.py:48 | Lexicographic string order is total. |
| Filtering.StrLeAntisymmetric | app.py:48 | Lexicographic string order is antisymmetric. |
| Filtering.StrLeTransitive | app.py:48 | Lexicographic string order is transitive. |
| Filtering.SortedPermutationUnique | app.py:48 | Two sorted permutations of the same rows are equal when no two rows tie on the key. Only tied rows may come out in either order. |
| Searching.Strip | app.py:84 | The stripped query is a slice of the input with only whitespace outside it. It neither starts nor ends with whitespace. It is empty exactly when the input is all whitespace. |
| Searching.LStrip | app.py:84 | Removes exactly the leading whitespace. |
| Searching.RStrip | app.py:84 | Removes exactly the trailing whitespace. |
| Searching.Lower | app.py:97-98 | Lower-casing maps each character through ASCII lower-casing and keeps the length. |
| Searching.LowerIsNormal | app.py:97-98 | Lower-casing is idempotent and leaves no upper-case letter. |
| Searching.Contains | app.py:97-98 | True exactly when the needle occurs at some position of the haystack. |
| Searching.EmptyQueryMatchesEverything | app.py:97-98 | The empty string occurs in every string. |
| Searching.Search | app.py:95-100 | The selection the mask makes from the records: exactly those whose lower-cased name or company contains the lower-cased query, each as often as in the catalogue. |
| Searching.SearchTable | app.py:95-100 | The mask on the table: a `KeyError` for `name` on the empty table. Otherwise it is the selection `Search` makes. |
| Searching.SearchIgnoresQueryCase | app.py:97-98 | The query's case does not change the result. |
| Searching.SearchOne | app.py:95-100 | A single record is found exactly when it matches the query. |
| Searching.SearchEmptyQuery | app.py:97-98 | The empty string matches every record, so a search for it would keep the whole catalogue. |
| Searching.SearchKeepsCatalogOrder | app.py:100 | The search result is the matching subsequence, in catalogue order. |
| Searching.ResultTable | app.py:91-102 | The table shown exists exactly when the catalogue has records and `sort_by` names a column, with `filter_data`'s errors, since it runs first. A non-blank stripped query gives the matching records of the full catalogue. |
| Searching.QueryShowsSearch | app.py:84-100 | With a non-blank query and a known sort key, the table is the search over the full catalogue. On the empty catalogue it is the `KeyError` for `category` that `filter_data` raises first. |
| Searching.QueryBypassesFilters | app.py:95-100 | With a non-blank query, neither the filters nor the sort change the table. |
| Searching.BlankQueryShowsFilteredTable | app.py:101-102 | An empty or all-whitespace query shows the output of `filter_data`. |
| Summary.AveragePrice | app.py:75 | The average is the integer truncation of the mean price: `avg * n <= total < (avg + 1) * n`. An empty table has no `price` column, which is a `KeyError`. |
| Summary.AverageWithinPriceBounds | app.py:75 | When every price lies in `[lo, hi]`, so does the average. |
| Summary.TotalPriceBounds | app.py:75 | The sum of prices lies between `n * lo` and `n * hi`. |
| Summary.PriceBounds | app.py:66 | The bounds are a smallest and a largest price that occur in the catalogue, and every price lies between them. An empty table has no `price` column, which is a `KeyError`. |
| Summary.CategoriesOf | app.py:63-65 | The category choices are exactly the categories that occur in the catalogue. An empty table has no `category` column, which is a `KeyError`. |
| Catalog.CheckColumn | app.py:39 | A column lookup succeeds exactly when the table has records. On the column-less table it is a `KeyError` naming the column. |
| Summary.PriceRange | app.py:66 | A smallest and a largest price that occur in a non-empty table, and every price lies between them. |
| Summary.TotalCountIsItemCount | app.py:74 | The product count shown is the number of (category, item) pairs in the catalogue. |
| Summary.SidebarOf | app.py:63-75 | The sidebar fails exactly on an empty table, with the `KeyError` of its first lookup (`category`). Otherwise its default filters keep the whole catalogue, its count is the number of records, and its average lies within the slider's bounds. |
| Summary.DefaultFiltersKeepAll | app.py:63-67 | With every category chosen and the full price range, the default filter keeps the whole catalogue in its order. |
| Summary.FindByName | app.py:116 | The lookup succeeds exactly when some record has that name. It then returns the first such record. On an empty table it is a `KeyError` for `name`; otherwise a missing name is an `IndexError`. |
| Summary.FirstNamed | app.py:116 | Among records that have a `name` column, the first record with that name, or an `IndexError` when none has it. |
| Summary.LookupOfListedName | app.py:116 | With distinct names, looking up a record's name returns that record. |
| Examples.ElectronicsByPrice | app.py:42-48 | Electronics priced in `[0, 100000]`, by price ascending, are Earbuds, Smartphone, Laptop. |
| Examples.ElectronicsRows | app.py:44-47 | The Electronics filter keeps Laptop, Smartphone and Earbuds, in catalogue order. |
| Examples.SearchHp | app.py:95-100 | Searching for "hp" finds only the Mouse, made by HP. |
| Examples.SearchPaddedHp | app.py:84-100 | The query " HP " gives the same one-row table whatever the filters. |
| Examples.SidebarFigures | app.py:74-75 | The catalogue has 7 products, one per item. The average price is 29214 rupees after truncation, and the prices range from 800 to 70000. |

## Left out

- Streamlit widgets, layout and messages are not modelled (the multiselect, slider, select boxes, columns, warnings and dataframe display). Their values are the parameters of the modelled functions.
- `@st.cache_data` memoization is not modelled. `LoadData` is a plain method.
- `details.copy()` needs no model. The catalogue is an immutable Dafny value, so flattening cannot change it, and `RecordOf` states that name, price and company pass through unchanged.
- DataFrame construction, `reset_index` and index labels are not modelled. A table is a sequence of records. The index that `df[mask]` keeps from the catalogue at app.py:100, and that `st.dataframe` displays, is not part of the model.
- Dates.ParseDate: accepts only the strict `YYYY-MM-DD` form the catalogue uses, with years 1 to 9999. The general formats of `pd.to_datetime`, its time components, its own range of timestamps and its exceptions are not modelled.
- Filtering.FilterData: leaves the order of rows with equal keys open. pandas' default quicksort is not stable, so no tie order is promised.
- Filtering.FilterData: accepts the name of any of the five columns, as `sort_values` does. Sorting by `company` or `category` compares strings by code point.
- Searching.Search: matches the query as a literal substring. `str.contains` treats its pattern as a regular expression by default, so queries with regex metacharacters are not modelled.
- Searching.Lower: lower-cases ASCII letters only. Unicode case folding is not modelled.
- Searching.Strip: treats only ASCII whitespace as whitespace (tab to carriage return, and code points 28 to 32). Unicode spaces are not modelled.
- `na=False` in `str.contains` needs no model: names and companies are always present strings.
- The floating-point mean with two-decimal rounding (app.py:127), the thousands separator and `strftime` formatting in the detail view (app.py:119-124) are display formatting and are not modelled.
- Summary.AveragePrice: is integer division of the price sum. It agrees with `int(np.mean(...))` for non-negative integer prices, except where floating-point rounding of very large sums would differ, which is not modelled.
