# Machine history and connection helpers, modelled in Dafny

This project models the three pieces of logic in the `hayhooks/common` helpers
of the maintenance-assistant service:

- **`SQL_GET_MACHINE`** (`diva_sql.py`), the PostgreSQL query that builds a
  machine's maintenance history. Its result is a tree: machine, its
  maintenance tickets, the spare parts each ticket used, and the stock rows
  of each part.
  - Tables are sequences of rows and NULL is `None`.
  - `json_agg` over no rows is NULL; otherwise it is the multiset of its
    values. `json_agg(DISTINCT ...)` gives the set.
  - Modules `Relational` (generic operators) and `DivaSql` (the query).
- **`get_postgres_connection` / `get_postgres_connection_async`**
  (`postgres_connection.py`): reading the environment with defaults, the
  ordered checks of the three required variables, and the connection string
  handed to the driver. Module `PostgresConnection`.
  - Its partner is a reader that splits the string back into settings.
    It round-trips whenever no value holds a space.
  - A witness shows that two different configurations can give the same
    string.
- **`get_qdrant_connection` / `get_qdrant_connection_async`**
  (`qdrant_connection.py`): reading the settings, parsing the integers and
  flags, and the three-way choice of `QdrantClient` arguments.
  - A malformed port or timeout fails before the `try` (ValueError).
  - A malformed gRPC port and a failing constructor fail inside it
    (UnexpectedResponse).
  - Module `QdrantConnection`.

Shared pieces:

- `Results` holds `Option` and `Result`.
- `Environment` models `os.getenv`, Python truthiness of a string, ASCII
  `str.lower`, and base-10 `int(str)`. `int(str)` skips surrounding
  whitespace and accepts a sign and single underscores between digits. It has
  `str(n)` as its partner.

The query model follows what the SQL text does:

- Both ticket CTEs filter on `machine_id = 1`, written into the text. So the
  tickets are those of machine 1 whatever id is bound. Every other machine
  gets `maintenance_tickets` NULL (`OtherMachinesHaveNoTickets`).
- An empty aggregate is NULL, not an empty list. This holds for
  `maintenance_tickets` (the `FILTER` removes the left join's padding row),
  for `spare_parts_used` and for `current_stock` (`ExampleSparePartsUsed`).
- `current_stock` lists the part's stock rows in every plant (`StockRows`,
  `ExampleStockOfOtherPlant`).
- The plant-filtered CTE `plant_stock` is defined (`PlantStock`) but nothing
  in the main query refers to it.
- DISTINCT merges ticket objects only when they are equal. With unique ticket
  ids nothing is merged (`TicketCount`).

The source's own comments say more than the code does, and the model follows
the code:

- `machine_tickets` is commented "Get all maintenance tickets for the machine"
  (`diva_sql.py:3`), and each hard-coded `1` carries "Replace with desired
  machine ID" (`diva_sql.py:13`, `:28`, `:43`). The bound id is used only in
  the main query's WHERE, so the tickets are always those of machine 1.
- `plant_stock` is commented as the stock "in the machine's plant"
  (`diva_sql.py:32`), but `current_stock` reads `spare_part_stock` directly,
  with no plant condition.

## Model

| member | source | states |
|---|---|---|
| Environment.GetEnv | hayhooks/common/postgres_connection.py:28-30 | `os.getenv(key)`: the value of a set variable, even an empty one, or None when unset |
| Environment.GetEnvOr | hayhooks/common/postgres_connection.py:26-27 | `os.getenv(key, default)`: the default only when the variable is unset, its value (even empty) otherwise |
| Environment.Truthy | hayhooks/common/postgres_connection.py:34-39 | `not value` on an optional string: false for None and for "" |
| Environment.IsTrueFlag | hayhooks/common/qdrant_connection.py:31 | `value.lower() == 'true'` |
| Environment.ParseInt | hayhooks/common/qdrant_connection.py:29 | base-10 `int(str)`: surrounding whitespace, an optional sign, digits with single underscores between them; None where Python raises ValueError, the 4300-digit limit aside |
| Environment.FlagIsCaseInsensitiveTrue | hayhooks/common/qdrant_connection.py:31 | `value.lower() == 'true'` holds exactly for four-character values spelling t, r, u, e in any mix of cases |
| Environment.DefaultFlagIsFalse | hayhooks/common/qdrant_connection.py:34 | an unset flag (default `'false'`) reads as false |
| Environment.IntRoundTrip | hayhooks/common/qdrant_connection.py:29 | the model's `int()` inverts its `str()` for every integer: `int(str(n)) == n` |
| Environment.BlankIsNotAnInt | hayhooks/common/qdrant_connection.py:32 | `int()` of an empty or all-whitespace value raises |
| Environment.IntIgnoresLeadingSpace | hayhooks/common/qdrant_connection.py:29 | whitespace in front of a value does not change what `int()` reads |
| Environment.IntAcceptsSign | hayhooks/common/qdrant_connection.py:32 | `int("-7") == -7` |
| Environment.IntAcceptsUnderscore | hayhooks/common/qdrant_connection.py:29 | `int("1_0") == 10` |
| Environment.IntRejectsDoubledUnderscore | hayhooks/common/qdrant_connection.py:29 | `int("1__0")` raises |
| Environment.IntRejectsSpaceAfterSign | hayhooks/common/qdrant_connection.py:29 | `int("- 5")` raises |
| PostgresConnection.ResolveSettings | hayhooks/common/postgres_connection.py:26-39 | the six reads with their defaults and the three falsy-string checks, in source order |
| PostgresConnection.ConnInfo | hayhooks/common/postgres_connection.py:43 | the f-string: six `key=value` fields separated by single spaces, values unquoted |
| PostgresConnection.GetPostgresConnection | hayhooks/common/postgres_connection.py:6-46 | the blocking helper up to `psycopg.connect`: the error, or the connection string with the dict row factory |
| PostgresConnection.GetPostgresConnectionAsync | hayhooks/common/postgres_connection.py:52-80 | the async helper, transcribed separately: its own reads, checks and f-string, and no row factory |
| PostgresConnection.RequiredVariablesCheckedInOrder | hayhooks/common/postgres_connection.py:28-39 | DB_NAME, DB_USER and DB_PASSWORD are checked in that order, unset or empty counting as missing. The first missing one is the error (iff). A connect call is made exactly when none is missing |
| PostgresConnection.SettingsDefaults | hayhooks/common/postgres_connection.py:26-31 | the settings hold the required values as given. Host, port and sslmode are the variables or "localhost", "5432" and "prefer" when unset |
| PostgresConnection.EmptyRequiredIsMissing | hayhooks/common/postgres_connection.py:28-39 | a required variable set to "" gives the same result as the variable unset, and that result is an error |
| PostgresConnection.EmptyOptionalIsKept | hayhooks/common/postgres_connection.py:26-31 | DB_HOST, DB_PORT or DB_SSLMODE set to "" is used as "", while unset it takes "localhost", "5432" or "prefer"; the other settings are unchanged |
| PostgresConnection.AsyncMatchesBlocking | hayhooks/common/postgres_connection.py:60-80 | the async helper fails exactly when the blocking one does, with the same error. It builds the same connection string and differs only in passing no dict row factory |
| PostgresConnection.ConnInfoFields | hayhooks/common/postgres_connection.py:43 | the connection string is the six `key=value` fields host, port, dbname, user, password, sslmode, separated by single spaces, when no value holds a space |
| PostgresConnection.ConnInfoRoundTrip | hayhooks/common/postgres_connection.py:43 | reading the connection string back gives the settings it was built from whenever no value holds a space |
| PostgresConnection.ConnInfoIsAmbiguousWithSpaces | hayhooks/common/postgres_connection.py:43 | two different settings (a password or sslmode holding a space) give the same connection string |
| PostgresConnection.ConnectCallCarriesEnvironment | hayhooks/common/postgres_connection.py:26-46 | on success the blocking helper passes the dict row factory. Its connection string reads back as the environment's values with the documented defaults |
| QdrantConnection.IntSetting | hayhooks/common/qdrant_connection.py:29 | `int()` outside the `try`: the parsed value, or a ValueError naming the variable |
| QdrantConnection.ReadSettings | hayhooks/common/qdrant_connection.py:27-34 | the eight reads before the `try`, in source order, the port parsed before the timeout |
| QdrantConnection.ChooseArgs | hayhooks/common/qdrant_connection.py:36-61 | the blocking if/elif/else: URL form, gRPC form with the gRPC port parsed inside the `try`, or HTTP form |
| QdrantConnection.ClientArgsFor | hayhooks/common/qdrant_connection.py:27-61 | the blocking helper's constructor arguments: the reads, then the branch |
| QdrantConnection.AsyncClientArgs | hayhooks/common/qdrant_connection.py:76-110 | the async helper's reads and branch, transcribed separately, with `prefer_grpc=False` on the URL form |
| QdrantConnection.GetQdrantConnection | hayhooks/common/qdrant_connection.py:26-66 | the blocking helper: a constructor that raises becomes a connection failure |
| QdrantConnection.GetQdrantConnectionAsync | hayhooks/common/qdrant_connection.py:75-115 | the async helper, the same way |
| QdrantConnection.SettingDefaults | hayhooks/common/qdrant_connection.py:27-34 | each unset variable takes its default whatever else is set: host "localhost", port 6333, timeout 60, HTTPS and gRPC preference false, no URL, key or gRPC port; a set port or timeout is its parsed value |
| QdrantConnection.MalformedIntegersFailBeforeBranch | hayhooks/common/qdrant_connection.py:29-36 | a malformed QDRANT_PORT, or else a malformed QDRANT_TIMEOUT, fails with ValueError before any branch, whatever else is set |
| QdrantConnection.EmptyPortIsNotDefaulted | hayhooks/common/qdrant_connection.py:29 | QDRANT_PORT set to "" is not defaulted to 6333: `int("")` fails before the `try` in both helpers |
| QdrantConnection.UrlFormWins | hayhooks/common/qdrant_connection.py:38-43 | a non-empty QDRANT_URL selects the URL form with the API key and timeout, whatever the other settings say. The async helper adds `prefer_grpc=False` |
| QdrantConnection.GrpcFormChosen | hayhooks/common/qdrant_connection.py:45-52 | without a URL, the gRPC flag plus a non-empty gRPC port selects the gRPC form with the parsed port. A malformed gRPC port is a connection failure |
| QdrantConnection.HttpFormOtherwise | hayhooks/common/qdrant_connection.py:54-61 | otherwise the HTTP form with host, port, HTTPS flag, API key and timeout |
| QdrantConnection.GrpcFormOnlyWhenWanted | hayhooks/common/qdrant_connection.py:38-52 | the gRPC form is produced only when there is no URL, the flag is set and a gRPC port is given |
| QdrantConnection.DefaultsWhenUnset | hayhooks/common/qdrant_connection.py:27-61 | with nothing set, the HTTP form is chosen: "localhost", port 6333, no HTTPS, timeout 60 |
| QdrantConnection.GrpcPortErrorIsConnectionFailure | hayhooks/common/qdrant_connection.py:45-66 | a malformed gRPC port is parsed inside the `try`, so both helpers fail with the connection failure and never reach the constructor |
| QdrantConnection.ChoiceFailures | hayhooks/common/qdrant_connection.py:27-61 | the blocking arguments fail with ValueError exactly when the reads fail, and with a connection failure exactly when the gRPC branch meets a malformed gRPC port |
| QdrantConnection.HelperOutcomes | hayhooks/common/qdrant_connection.py:26-115 | for both helpers and any constructor: ValueError exactly when the reads before the `try` fail; connection failure exactly on a malformed gRPC port on the gRPC branch or a raising constructor; otherwise the client of the chosen arguments |
| QdrantConnection.AsyncMakesSameChoice | hayhooks/common/qdrant_connection.py:26-110 | the separately transcribed async helper makes the same choice with the same arguments and failures as the blocking one; only its URL form differs, by `prefer_grpc=False` where the blocking helper passes nothing |
| Relational.Filter | hayhooks/common/diva_sql.py:13 | a WHERE keeps exactly the rows satisfying its test, and never more rows than it read |
| Relational.FilterMultiplicity | hayhooks/common/diva_sql.py:81 | a WHERE keeps each passing row exactly as often as the table holds it, and no failing row |
| Relational.InnerJoin | hayhooks/common/diva_sql.py:25-26 | an inner join holds exactly the projections of the matching pairs |
| Relational.LeftJoinRow | hayhooks/common/diva_sql.py:91-92 | a machine row is paired with each matching ticket, and is the single NULL-padded row exactly when no ticket matches |
| Relational.LeftJoin | hayhooks/common/diva_sql.py:91-92 | exactly the matched pairs and the NULL-padded pairs of rows with no match; each row with no match gives as many NULL-padded rows as it occurs in the left table |
| Relational.NonNull | hayhooks/common/diva_sql.py:89 | `FILTER (WHERE mt.ticket_id IS NOT NULL)` keeps exactly the tickets present in the joined rows |
| Relational.Distinct | hayhooks/common/diva_sql.py:94 | grouping keeps every distinct value once and no value twice |
| Relational.FilterJoin | hayhooks/common/diva_sql.py:25-29 | a WHERE on the join that looks only at the movement equals joining the filtered movements |
| Relational.InnerJoinSize | hayhooks/common/diva_sql.py:25-26 | when each row matches at most one part, the join has one row per row that has a match |
| Relational.ImageSize | hayhooks/common/diva_sql.py:55-56 | mapping keyed rows by a function that keeps the key gives a set with one element per row |
| DivaSql.SqlEq | hayhooks/common/diva_sql.py:26 | SQL `=` on nullable keys: NULL never matches |
| DivaSql.JsonAgg | hayhooks/common/diva_sql.py:64 | `json_agg`: NULL over no rows, otherwise the rows' values |
| DivaSql.JsonAggDistinct | hayhooks/common/diva_sql.py:55-56 | `json_agg(DISTINCT ...)`: NULL over no rows, otherwise the distinct values |
| DivaSql.MachineTickets | hayhooks/common/diva_sql.py:2-14 | CTE `machine_tickets`: the tickets with machine_id 1 |
| DivaSql.OfFixedMachineTicket | hayhooks/common/diva_sql.py:27-29 | the IN subquery on the ids of machine-1 tickets |
| DivaSql.TicketSpareParts | hayhooks/common/diva_sql.py:15-30 | CTE `ticket_spare_parts`: movements joined to their part, kept for machine-1 tickets |
| DivaSql.PlacedStock | hayhooks/common/diva_sql.py:40-42 | the two joins of `plant_stock` |
| DivaSql.PlantStock | hayhooks/common/diva_sql.py:31-44 | CTE `plant_stock`, which the main query never uses |
| DivaSql.StockLevels | hayhooks/common/diva_sql.py:73-81 | the stock objects of a part, no plant condition |
| DivaSql.CurrentStock | hayhooks/common/diva_sql.py:72-82 | `current_stock` |
| DivaSql.TicketPartRows | hayhooks/common/diva_sql.py:85-86 | the `ticket_spare_parts` rows of one ticket |
| DivaSql.Usages | hayhooks/common/diva_sql.py:65-83 | one usage object per such row |
| DivaSql.SparePartsUsed | hayhooks/common/diva_sql.py:63-87 | `spare_parts_used` |
| DivaSql.TicketObject | hayhooks/common/diva_sql.py:56-88 | the ticket object |
| DivaSql.MachineRows | hayhooks/common/diva_sql.py:91-93 | `machine LEFT JOIN machine_tickets ... WHERE m.id = %(machine_id)s` |
| DivaSql.Groups | hayhooks/common/diva_sql.py:94 | the GROUP BY groups |
| DivaSql.GroupRows | hayhooks/common/diva_sql.py:94 | the joined rows of one group |
| DivaSql.GroupTicketObjects | hayhooks/common/diva_sql.py:55-89 | the ticket objects of a group's non-null tickets |
| DivaSql.GroupRow | hayhooks/common/diva_sql.py:48-89 | the output row of a group: the machine columns and `maintenance_tickets` |
| DivaSql.Query | hayhooks/common/diva_sql.py:48-94 | `SQL_GET_MACHINE` with the parameter bound |
| DivaSql.FetchOne | hayhooks/pipelines/diva/pipeline_wrapper.py:44 | `cursor.fetchone()`: the first row or None |
| DivaSql.FetchMachine | hayhooks/pipelines/diva/pipeline_wrapper.py:40-44 | the query executed with the requested id, one row fetched |
| DivaSql.MachineRowsMeaning | hayhooks/common/diva_sql.py:91-93 | a joined row is a machine with the bound id paired with one of its machine-1 tickets, or with NULL exactly when it has none |
| DivaSql.GroupsAreMachineRows | hayhooks/common/diva_sql.py:91-94 | the groups are exactly the machine rows with the bound id |
| DivaSql.GroupTickets | hayhooks/common/diva_sql.py:89-92 | a group's non-null tickets are the machine-1 tickets when the bound id is 1, and none otherwise |
| DivaSql.QueryFollowsGroups | hayhooks/common/diva_sql.py:48-52 | the result has one row per group, rooted at that group's machine |
| DivaSql.QueryRoots | hayhooks/common/diva_sql.py:48-52 | every row's machine_id, plant_name and machine_designation come from a machine row with the bound id. Every such machine row gets a row, and no two rows share a root |
| DivaSql.NoMachineNoRow | hayhooks/common/diva_sql.py:91-94 | the query yields no row, and the fetch None, exactly when no machine has the bound id |
| DivaSql.OneRowPerMachine | hayhooks/pipelines/diva/pipeline_wrapper.py:40-44 | with unique machine ids and the machine present, there is exactly one row, the one fetched, rooted at that machine |
| DivaSql.TicketObjectsOfGroup | hayhooks/common/diva_sql.py:55-62 | the ticket objects of a group are those of the machine-1 tickets, and only when the bound id is 1 |
| DivaSql.GroupRowTickets | hayhooks/common/diva_sql.py:55-89 | a group's `maintenance_tickets` is NULL exactly when the bound id is not 1 or machine 1 has no ticket. Otherwise it holds one object per machine-1 ticket |
| DivaSql.RowTickets | hayhooks/common/diva_sql.py:55-92 | the same for every returned row: NULL exactly when the bound id is not 1 or machine 1 has no ticket (not an empty list), otherwise exactly the machine-1 tickets' objects |
| DivaSql.OtherMachinesHaveNoTickets | hayhooks/common/diva_sql.py:12-13 | for any bound id other than 1, every returned row has NULL tickets, whatever tickets that machine has |
| DivaSql.GroupTicketCount | hayhooks/common/diva_sql.py:55-56 | with unique ticket ids, the distinct ticket objects are as many as the machine-1 tickets |
| DivaSql.TicketCount | hayhooks/common/diva_sql.py:55-56 | with unique ticket ids, the fixed machine's row has as many tickets as machine 1 has. DISTINCT merges nothing, so no ticket appears twice |
| DivaSql.FixedMachineRow | hayhooks/pipelines/diva/pipeline_wrapper.py:40-44 | with unique machine and ticket ids, fetching machine 1 yields its row with one ticket object per machine-1 ticket, and NULL tickets exactly when it has none |
| DivaSql.InSubqueryMeaning | hayhooks/common/diva_sql.py:27-29 | the IN subquery accepts exactly the non-null ids of machine-1 tickets |
| DivaSql.TicketPartRowsMeaning | hayhooks/common/diva_sql.py:17-29 | a ticket's `ticket_spare_parts` rows are its movements that name an existing spare part, and none unless it is a machine-1 ticket |
| DivaSql.UsagesMeaning | hayhooks/common/diva_sql.py:63-71 | each usage copies the part's id, designation, manufacturer and supplier and the movement's quantity and date, and carries the part's stock |
| DivaSql.UsagesEmpty | hayhooks/common/diva_sql.py:63-86 | a ticket has no usage exactly when it is not a machine-1 ticket or none of its movements names an existing part |
| DivaSql.UsageRows | hayhooks/common/diva_sql.py:63-86 | `spare_parts_used` holds exactly those usages, and is NULL (not empty) exactly when the ticket is not a machine-1 ticket or has no such movement |
| DivaSql.UsageCount | hayhooks/common/diva_sql.py:63-86 | with unique part ids, a machine-1 ticket has one usage per movement naming an existing part. The join drops and duplicates nothing |
| DivaSql.StockLevelsMeaning | hayhooks/common/diva_sql.py:72-81 | the stock levels of a part are its stock rows' plant, stock and unit, with no plant condition |
| DivaSql.StockRows | hayhooks/common/diva_sql.py:72-82 | `current_stock` holds every stock row of the part in every plant, each row once. It is NULL exactly when the part has no stock row |
| DivaSql.PlacedStockMeaning | hayhooks/common/diva_sql.py:40-42 | the `plant_stock` joins pair each stock row with its part and with each machine of the same plant |
| DivaSql.PlantStockRows | hayhooks/common/diva_sql.py:31-44 | `plant_stock` holds exactly the stock rows, with part columns, of the plants holding a machine with id 1 |
| DivaSql.ExampleSparePartsUsed | hayhooks/common/diva_sql.py:63-87 | in a machine with a ticket using one part and a ticket using none, the first has one usage. The second has NULL, not an empty list |
| DivaSql.ExampleStockOfOtherPlant | hayhooks/common/diva_sql.py:72-81 | the part's stock includes the row of a plant other than the machine's |
| DivaSql.ExampleTickets | hayhooks/common/diva_sql.py:55-92 | the fetched row of that machine holds both of its tickets |

## Left out

- Connecting, the actual calls.
  - `psycopg.connect`, `psycopg.AsyncConnection.connect` and the `QdrantClient`
    constructor are foreign calls. The model returns the arguments they
    receive.
  - Whether the constructor raises is a parameter. Whether `psycopg.connect`
    fails is not modelled: that branch only re-raises with a message.
- Async behaviour. The async PostgreSQL helper returns the connect call without
  awaiting it. Only the call's arguments are modelled.
- Exception classes and message texts. Errors are `MissingVariable(name)`,
  `InvalidInteger(variable)` and `ConnectionFailure`.
- `print`, cursor handling and `conn.close()` in `MachineFetcher.run`, and the
  rest of `pipeline_wrapper.py`: Haystack wiring, prompt templating and the
  LLM call. The fetch is modelled as `FetchMachine`, the query followed by
  `fetchone`.
- `test_qdrant_connection` and the `__main__` blocks: printing only.
- Environment.ParseInt: ASCII whitespace and digits only. Python's `int()`
  also accepts other Unicode digits and whitespace.
- Environment.ParseInt: no 4300-digit limit. Since Python 3.11 (and the
  3.10.7, 3.9.14, 3.8.14 and 3.7.14 backports) `int()` raises ValueError for
  a longer digit string under the default `int_max_str_digits`, and `str(n)`
  raises for such n; the model parses and prints them.
- Environment.IntRoundTrip: states the model's round trip for every integer.
  Past 4300 digits Python's `str(n)` raises, so there the lemma says nothing
  about Python.
- Environment.Lower: ASCII letters only. Python's `str.lower` also folds other
  Unicode letters.
- PostgresConnection.ConnInfoRoundTrip: holds only when no value contains a
  space. libpq's quoting rules are not part of this model.
- Element order of `json_agg` and JSON, date and number serialisation. Dates
  and text columns are strings. Aggregates are multisets, or sets for
  `DISTINCT`.
- Equality of ticket objects under DISTINCT is datatype equality, with nested
  arrays compared as multisets. PostgreSQL compares `jsonb` arrays in order.
  This matters only for two tickets equal in every column, which unique ids
  rule out.
- NULL in data columns (ticket number, dates, quantity, stock, names) is not
  modelled. Keys and foreign keys are nullable where the schema allows it.
- DivaSql.OneRowPerMachine: assumes machine ids are unique. Without that,
  QueryRoots gives one row per distinct machine row with the bound id.
- DivaSql.TicketCount: assumes ticket ids are unique, as a primary key makes
  them.
- DivaSql.UsageCount: assumes spare part ids are unique, as a primary key
  makes them.
- Validating the requested machine id before the query is not in the code and
  is not modelled.
