# Prompt Base: the list query of `list_prompts`

Prompt Base is a small Streamlit page over one PostgreSQL table, `prompts`
(`id`, `title`, `description`, `is_favorite`). Its only piece of logic is the
dynamic query built by `list_prompts`. The function takes an optional title
search, a tri-state favourite filter, a sort column and a sort order. From
them it builds an SQL text and the ordered tuple of parameters that
psycopg2 binds to the text's `%s` placeholders. Two selector mappings on
the page feed it: the favourite selector's choice becomes the tri-state
filter, and the sort-order choice becomes `asc` or `desc`.

This project models that builder and the two mappings in Dafny and proves:

- the safety rule of the builder: user values only ever travel as
  parameters, and a column name reaches the text only when it is one of
  the two sortable columns;
- that placeholders and parameters correspond one to one, in order;
- that the clause structure (WHERE, AND, ORDER BY, ASC/DESC) follows
  exactly from which inputs are present.

Files:

- `wrappers.dfy` (module `Wrappers`): `Option`, standing for Python's
  `None`-or-value arguments.
- `sql_text.dfy` (module `SqlText`): Python's `sep.join(parts)` and `t in s`,
  and the placeholder count psycopg2 reads from a query text, with lemmas
  on how the count behaves under concatenation and joining.
- `prompt_store.dfy` (module `PromptStore`): the builder. `BuildListQuery`
  is the imperative method: it grows `conditions`, `params` and the query
  text step by step, as the Python code does. `ListConditions`,
  `ListParams` and `ListQuery` are the functions that specify it, and
  `QueryShape` is an independent reference that spells out every text the
  query can have. The lemmas beside them state the properties.
- `selectors.dfy` (module `Selectors`): the two selector mappings, their
  inverses and how they reach the query.

Python strings are `string` (`seq<char>`). The test `if search_query:` is
Python truthiness, so `None` and `""` both count as absent
(`SearchPresent`). The favourite filter is absent only when it is `None`:
`Some(false)` is a real filter. The parameter tuple is a `seq<Param>`, where
`Param` is `PText(text)` or `PBool(flag)`.

The search parameter is `"%" + search + "%"`, an ILIKE pattern (app.py:56).
ILIKE matching is decided by the database, and `%` and `_` in the search
text are not escaped, so they act as wildcards. The model therefore states
only which pattern is sent (`SearchPattern`), never which rows match it.
The sort order defaults to `asc` (app.py:47). Only that exact string gives
`ASC`; every other value (`Asc`, `""`, anything else) gives `DESC`
(app.py:66, `SortDirection`).

## Model

| member | source | states |
|---|---|---|
| `PromptStore.BuildListQuery` | app.py:47-70 | The builder returns the text of `ListQuery` and the parameters of `ListParams` for its four inputs. The text starts with the fixed SELECT. The number of `%s` placeholders psycopg2 finds in it equals the number of parameters. |
| `PromptStore.ListParams` | app.py:51-60 | One parameter per present filter: one for a present search, one for a non-`None` favourite filter. A text parameter can only be the first one, and only when the search is present. |
| `PromptStore.ListConditions` | app.py:51-60 | One predicate per parameter, in the same order. The k-th predicate is `title ILIKE %s` exactly when the k-th parameter is text, and `is_favorite = %s` exactly when it is a boolean. |
| `PromptStore.SearchPattern` | app.py:56 | The search parameter is two longer than the search text, starts and ends with `%`, and holds the text unchanged between them. |
| `PromptStore.SortDirection` | app.py:66 | The direction is `ASC` if and only if the sort order is exactly `asc`. Otherwise it is `DESC`. |
| `PromptStore.QueryStartsWithSelect` | app.py:50 | Every built text begins with `SELECT id, title, description, is_favorite FROM prompts`. |
| `PromptStore.SearchFilter` | app.py:54-56 | The search predicate is in the list if and only if the search is neither `None` nor empty. When present, it and its `%`-wrapped parameter come first. When absent, nothing is added and no text parameter exists. |
| `PromptStore.FavoriteFilter` | app.py:58-60 | The favourite predicate is in the list if and only if the filter is not `None`. When present, it and its boolean parameter come last. `Some(false)` adds a parameter just as `Some(true)` does. |
| `PromptStore.BothFilters` | app.py:51-63 | With both filters, the parameters are exactly the search pattern followed by the boolean. The WHERE clause is exactly ` WHERE title ILIKE %s AND is_favorite = %s`, with one AND. |
| `PromptStore.WhereClauseCases` | app.py:62-63 | The WHERE clause has exactly four forms: empty, the search predicate alone, the favourite predicate alone, or both joined by AND. |
| `PromptStore.PlaceholdersMatchParams` | app.py:51-70 | For every input, the count of `%s` placeholders in the built text equals the length of the parameter tuple given to `cur.execute`. |
| `PromptStore.WhereIffFilter` | app.py:62-63 | ` WHERE ` occurs in the text if and only if at least one filter is present. |
| `PromptStore.AndIffBothFilters` | app.py:62-63 | ` AND ` occurs in the text if and only if both filters are present. |
| `PromptStore.OrderByIffSortColumn` | app.py:67-68 | ` ORDER BY ` occurs in the text if and only if the sort column is `title` or `is_favorite`. |
| `PromptStore.OrderByEndsQuery` | app.py:66-68 | For a whitelisted column, the text ends with ` ORDER BY <column> <direction>`. |
| `PromptStore.ListQueryShape` | app.py:50-68 | The built text equals the reference text `QueryShape`. That text depends only on whether each filter is present, on the whitelisted column if there is one, and on whether the order is `asc`. |
| `PromptStore.ValuesNeverInText` | app.py:54-63 | Two calls with the same filter presence, column and order build the same text, whatever the search text and the favourite value are. Values reach only the parameters. |
| `PromptStore.UnlistedSortColumnIgnored` | app.py:67-68 | A sort column outside the whitelist is ignored without error. The text is the one with no ORDER BY clause, so the column name never enters it. |
| `PromptStore.DefaultListQuery` | app.py:47 | With the default arguments (no search, no favourite filter, `title`, `asc`), the text is the SELECT followed by ` ORDER BY title ASC`, with no parameters. |
| `Selectors.FavoriteFilterOf` | app.py:123 | `"Favorite"` maps to `Some(true)`, and only it does. `"Not Favorite"` maps to `Some(false)`, and only it does. Every other choice maps to `None`. |
| `Selectors.FavoriteSelectorRoundTrip` | app.py:122-123 | The selector's three options `All`, `Favorite` and `Not Favorite` correspond one to one to the three filter values, in both directions. |
| `Selectors.SortOrderOf` | app.py:130 | `"Ascending"` maps to `asc`, and only it does. Every other choice maps to `desc`. |
| `Selectors.SortOrderSelectorRoundTrip` | app.py:125-130 | The options `Ascending` and `Descending` correspond one to one to `asc` and `desc`. |
| `Selectors.FavoriteSelectorFilters` | app.py:122-131 | Through the selector, only `Favorite` and `Not Favorite` add a parameter. `Not Favorite` adds the parameter `false`. |
| `Selectors.SortOrderSelectorDirection` | app.py:125-131 | Through the selector, a whitelisted column is sorted `ASC` exactly when `Ascending` is chosen, and `DESC` otherwise. |

## Left out

- Connection setup: `load_dotenv`, the `DB_*` environment variables and `psycopg2.connect` with `sslmode='require'` (app.py:7-19). These are configuration and network I/O.
- `init_db` and the CRUD functions `create_prompt`, `update_favorite_status`, `delete_prompt` and `update_prompt` (app.py:22-45, 75-99). Each sends one fixed parameterised statement and commits. Their effect (row insertion, id assignment, a no-op on a missing id) happens inside PostgreSQL, which the model cannot see.
- Running the built query: `cur.execute`, `fetchall`, and what `ILIKE` and `ORDER BY` do with rows (app.py:70-72). Matching is decided by the database, and `%` and `_` in the search text act as wildcards. So no lemma claims substring matching or a sorted result.
- The Streamlit page in `main` (app.py:102-166): forms, expanders, buttons, the per-record edit-mode flags in `st.session_state` and `st.experimental_rerun`. Only the two pure selector mappings at app.py:123 and app.py:130 are modelled.
- Python default arguments of `list_prompts` (app.py:47): the Dafny method takes all four arguments. `DefaultListQuery` states the text those defaults produce.
- `SqlText.Placeholders` counts `%s` as psycopg2 reads it, with `%%` as an escaped percent sign. Named placeholders (`%(name)s`) and psycopg2's error on other format characters are not modelled. The builder's fixed texts contain neither.
