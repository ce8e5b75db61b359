# alkane-php core in Dafny

This project models the core of the alkane-php framework and proves properties of the model. It covers six parts:

- the fluent SQL text builder `Core\SqlQuery`;
- the route table `Core\Router`;
- the dotted-path session store `Core\Session`;
- the configuration and connection-slot logic of `Core\Database`;
- the query composition of `Core\Model`;
- the error-code choice and message table of `App\Controllers\ErrorPageController`.

PHP values and arrays are modelled in `Php` (php.dfy).

- An array is the sequence of its entries in insertion order.
- Lookups, assignment, `unset`, `$a[] = v`, `array_merge` and `array_merge_recursive` are written out as PHP performs them.
- String keys are normalised the way PHP normalises them: canonical decimal text becomes an integer key.

The string built-ins are in `PhpStrings` (strings.dfy): `trim`, `strtoupper`/`strtolower`, `implode`/`explode`, `str_replace` and integer-to-text conversion.

The PDO driver is an input of the model (connection.dfy).

- A connection is an opaque identity.
- What the driver answers to one prepare-and-execute round is a parameter, and so is how the transaction around it ends (`Finish`).
- The calls made on the driver are part of each operation's result.

Regular expressions are not evaluated. The router takes a `Regex` value that supplies two things:

- what `preg_match_all` finds in a route template;
- what `preg_match` captures when a pattern is applied to a path.

The form of the model follows the form of the source.

- **Classes.** `SqlQuery`, `Router`, `Session`, `Database` (with a `Registry` for its static tables) and `Model` are classes. Their methods change the fields the PHP methods change and state the whole new state.
- **Loops.** The loops of `parseRouteParams`, `generateRoutePattern`, `extractParameters`, `run` and the session walks are `while` loops. Each is proved against a specification function (`ParamInfos`, `RoutePattern`, `ParametersFrom`, `FirstMatch`, `Lookup`, `UnsetIn`).
- **Pure functions.** The pure parts are functions: `extractMethod`, `isValidRequestMethod`, the config lookups, `validateConfig`, `createConfig`, the DSN and `getErrorMessage`.

`Router.GetParams`, `Database.GetErrorInfo` and `Model.GetErrorMessage` are plain reads of a field. `Database.Registry` holds the static fields `$config`, `$custom_configs` and `$pdo`, which every database object shares.

Facts about core/SqlQuery.php that shape the model:

- **`join`** (line 199) upper-cases the join type and writes it as given.
- **`values`** (lines 222-227) writes every value inside single quotes with nothing escaped, and stores the row as the builder's data.
- **`where`** (lines 158-164) appends its text first. With data it then calls `indexParamData`, which the class does not define, so the call fails.
- **`exec`** (lines 276-296):
  - with no connection it throws a PDOException and its catch block calls `rollBack` on null;
  - beginTransaction, prepare, execute, lastInsertId and commit can each raise a PDOException; the failure is followed by `rollBack`, and the exception is thrown again;
  - when the driver fails to begin, no transaction is open, so `rollBack` raises its own PDOException ("There is no active transaction"), which replaces the first;
  - the connection is the shared `Database::$pdo`, so another user of it may already hold a transaction. beginTransaction then raises "There is already an active transaction"; `rollBack` ends the other transaction and the refusal is rethrown;
  - the statement is kept at line 284 and the insert id at line 285, so a later failure leaves them set.
- **`resetQuery`** (lines 303-308) clears the text, the parameters, the data and the statement; the last insert id stays.

In core/Database.php, `executeQuery` (lines 171-185) declares the return type `?PDOStatement`. The namespace `Core` imports only `PDO` and `PDOException` (lines 5-6), so that name means `Core\PDOStatement`. Returning the driver's statement therefore raises a `\TypeError`, which the catch of `PDOException` does not handle, and `errorInfo` keeps its value. When the query fails, the method appends the message to `errorInfo` and returns null. So no call returns a statement (`Databases.QueryOutcome`).

`set` in core/Session.php (lines 34-52) merges with `array_merge_recursive` (line 51), which renumbers integer keys. With an integer first key, `set("5.x", v)` on an empty session files the branch under key 0, and `get("5.x")` then answers null (`Sessions.SetIntegerKeyRenumbers`). The set-then-get lemmas therefore take string keys. `Sessions.FreshPath` names the paths they cover: the walk goes through existing arrays until it meets a missing key, so `set("user.b", 2)` after `set("user.a", 1)` is covered (`Sessions.SetBesideExistingLeaf`).

In core/Session.php the guard of `unset` (line 100) joins its two tests with `||`, so it holds for every argument. The model keeps that guard (`Sessions.UnsetGuard`), which makes the `session_destroy` branch unreachable. A missing argument is treated as the empty path.

## Model

| member | source | states |
|---|---|---|
| Php.StringKey | core/Session.php:43-46 | A string used as an array key becomes an integer key exactly when it is canonical decimal integer text; otherwise it stays a string key with the same text |
| PhpStrings.IsIntegerKey | core/Session.php:43-46 | The key text PHP turns into an integer key: an optional '-', then digits without a leading zero ("0" allowed, "-0" not); StringKey and KeyTextRoundTrip use it |
| Php.StringKeyIsNormal | core/Session.php:43-46 | Every key made from a string is in PHP's normal form: no string key holds integer text |
| Php.KeyTextRoundTrip | core/SqlQuery.php:249-252 | A key read back as text by array_keys and used as a key again is the same key |
| Php.StringKeyRoundTrip | core/Router.php:138 | The text of the key a string becomes is that string again |
| Php.Find | core/Session.php:43 | array_key_exists: the first position holding the key (every earlier position holds another key), or none exactly when no position holds it |
| Php.GetFound | core/Session.php:70-73 | `$a[$k]` yields a value exactly when some entry has key k |
| Php.GetAt | core/Database.php:104-106 | In an array with distinct keys every entry is what a lookup of its own key finds |
| Php.Put | core/Router.php:138 | `$a[$k] = $v`: k then holds v and every other key reads as before; an existing key keeps its place (the length is unchanged), a new key is appended last |
| Php.PutKeys | core/Database.php:89-90 | After `$a[$k] = $v` the keys present are those of a together with k |
| Php.PutKeepsDistinct | core/Router.php:138 | Assignment keeps the keys of an array distinct and adds at most one entry |
| Php.Remove | core/Session.php:111 | `unset($a[$k])`: k is absent afterwards, every other key reads as before, nothing changes when k was absent, keys stay distinct |
| Php.MaxIntKey | core/Session.php:51 | The largest integer key of an array (an upper bound that some entry holds), none exactly when all keys are strings |
| Php.NextIndex | core/Session.php:51 | The key `$a[] = v` uses is held by no entry, and is 0 when there is no integer key |
| Php.Push | core/Session.php:51 | `$a[] = v` appends one entry under the next index and keeps keys distinct |
| Php.RenumberFrom | core/SqlQuery.php:82-83 | array_merge copies its first array keeping every value and every string-keyed entry, with integer keys renumbered |
| Php.RenumberKeepsStrings | core/SqlQuery.php:82-83 | The copy answers every string-key lookup as the original does |
| Php.RenumberStringKeyed | core/Database.php:119 | Copying an array without integer keys changes nothing |
| Php.MergeIntoFresh | core/SqlQuery.php:252 | Merging string-keyed entries whose keys are all new appends them in order |
| Php.MergeSelf | core/Database.php:128 | array_merge of a string-keyed array with itself is that array |
| Php.MergeStringKey | core/Database.php:119 | In array_merge the later array wins for every string key it has; other string keys keep the earlier array's value |
| Php.MergeInto | core/SqlQuery.php:82-83 | array_merge into a copy: string keys overwrite in place, integer keys are appended; grows by at most the entries merged and keeps keys distinct |
| Php.Merge | core/SqlQuery.php:82-83 | array_merge(a, b) has between |a| and |a|+|b| entries and is a itself when a has only string keys and b is empty; MergeStringKey states the values |
| Php.Renumber | core/SqlQuery.php:82-83 | The copy array_merge and array_merge_recursive start from: integer keys renumbered from 0, string-keyed entries kept; RenumberKeepsStrings states it |
| Php.MergeRecEntry | core/Session.php:51 | One entry of array_merge_recursive adds at most one entry, and a string key is present afterwards |
| Php.MergeRecInto | core/Session.php:51 | array_merge_recursive into a copy grows by at most the entries merged |
| Php.MergeRecursive | core/Session.php:51 | array_merge_recursive(a, b) has between |a| and |a|+|b| entries |
| Php.AsArray | core/Session.php:51 | convert_to_array inside array_merge_recursive: an array as it is, any other value as a one-entry list under key 0 |
| Php.Get | core/Session.php:70-73 | `$a[$k]` with presence: the value of the first entry with key k; GetFound, GetAppend and GetAt state its properties |
| Php.HasKey | core/Session.php:43 | array_key_exists; GetFound states when it holds |
| Php.Text | core/SqlQuery.php:224 | `(string)$v`: empty exactly for null, false and the empty string |
| Php.KeyText | core/SqlQuery.php:249-252 | `(string)$key` for an array key: an integer key as decimal text, a string key as itself; KeyTextRoundTrip states that the text gives the key back |
| Php.StrTruthy | core/SqlQuery.php:109 | `(bool)$s` for a string: false exactly for "" and "0" |
| Php.Truthy | core/Database.php:136 | `(bool)$v`: false for null, false, 0, "", "0" and the empty array; NamesDatabase and the error-code choice use it |
| Php.IsSet | core/Database.php:112 | isset: the key is present and its value is not null; ValidateConfig is built on it |
| PhpStrings.TrimStart | core/Router.php:56 | ltrim: the longest suffix not starting with a stripped character, everything removed being stripped characters |
| PhpStrings.TrimEnd | core/Router.php:56 | rtrim: the longest prefix not ending with a stripped character, everything removed being stripped characters |
| PhpStrings.TrimChars | core/Session.php:40 | trim: no longer than the input, and neither end is a stripped character |
| PhpStrings.TrimCharsNoop | core/Session.php:40 | Trimming a string whose ends are not stripped characters changes nothing |
| PhpStrings.Trim | core/SqlQuery.php:147 | trim with the default list (space, tab, newline, carriage return, NUL, vertical tab): never longer than the input; TrimChars states the ends |
| PhpStrings.Upper | core/Router.php:28 | strtoupper keeps the length, maps each character, and leaves no ASCII lower-case letter |
| PhpStrings.Lower | core/Router.php:110 | strtolower keeps the length, maps each character, and leaves no ASCII upper-case letter |
| PhpStrings.UpperOfLower | core/Router.php:145 | Upper-casing forgets the case of its input, so comparing upper-cased strings ignores case |
| PhpStrings.LowerOfUpper | core/SqlQuery.php:109 | Lower-casing forgets the case of its input |
| PhpStrings.Implode | core/SqlQuery.php:136 | implode of no parts is empty and of one part is that part |
| PhpStrings.ImplodeEnds | core/Session.php:40 | Non-empty parts joined keep the first part's first character and the last part's last character at the ends |
| PhpStrings.FirstOccurrence | core/Router.php:88 | The first position at or after a start where the separator occurs, no earlier occurrence, or -1 for none |
| PhpStrings.Explode | core/Session.php:40 | explode gives at least one piece, none containing the separator |
| PhpStrings.ImplodeExplode | core/Session.php:40 | Joining the pieces of explode with the same separator gives back the input |
| PhpStrings.ExplodeWithoutSeparator | core/Router.php:88 | A text without the separator's first character is one piece |
| PhpStrings.ExplodeImplode | core/SqlQuery.php:136 | When no part contains the separator's first character, explode undoes implode |
| PhpStrings.StrReplaceAbsent | core/Router.php:125-129 | A search string that does not occur leaves the subject unchanged |
| PhpStrings.StrReplace | core/Router.php:89 | str_replace: an empty search string, or a search string replaced by itself, leaves the subject unchanged; StrReplaceAbsent and EscapedCharPreceded state the rest |
| PhpStrings.EscapedCharPreceded | core/Router.php:131 | After replacing every '/' by '\/', every '/' is preceded by '\' |
| PhpStrings.NatToDecimal | core/SqlQuery.php:186 | The decimal text of a natural number: digits only, no leading zero |
| PhpStrings.IntToDecimal | core/SqlQuery.php:186 | The text PHP makes of an integer is never empty |
| PhpStrings.DigitsOfNat | core/SqlQuery.php:186 | The digits of a number denote that number |
| PhpStrings.IntegerKeyOfDecimal | core/Session.php:43-46 | The decimal text of every integer is integer-key text that denotes it |
| PhpStrings.DecimalOfIntegerKey | core/Session.php:43-46 | The decimal text of an integer key's value is the key text itself |
| Sql.ConnectionFor | core/SqlQuery.php:42-50 | The constructor takes a Database's connection or a PDO as is, and raises "Invalid connection object" for anything else |
| Sql.TrimAll | core/SqlQuery.php:136 | array_map trim over the columns: one trimmed column per column |
| Sql.AggregateName | core/SqlQuery.php:109-113 | The lower-cased name when it is count, avg or sum, otherwise count; always one of the three |
| Sql.SortKeyword | core/SqlQuery.php:174 | ASC exactly for SORT_ASC (0), DESC for every other integer |
| Sql.SelectKeyword | core/SqlQuery.php:96 | `SELECT ` or, for distinct, `SELECT DISTINCT ` |
| Sql.ColumnsText | core/SqlQuery.php:132-138 | The column text ends in a space |
| Sql.AggregateCall | core/SqlQuery.php:114-119 | The aggregate call begins with the name and `(`, and ends with `) ` |
| Sql.AggregationText | core/SqlQuery.php:108-124 | The aggregation or column text ends in a space |
| Sql.SelectText | core/SqlQuery.php:95-99 | Begins with `SELECT `, then `DISTINCT ` when asked, and ends in a space |
| Sql.FromText | core/SqlQuery.php:146-149 | `FROM `, the trimmed table and one closing space |
| Sql.WhereText | core/SqlQuery.php:158-159 | `WHERE `, the trimmed condition and one closing space |
| Sql.OrderByText | core/SqlQuery.php:173-176 | Begins with `ORDER BY ` and ends in a space |
| Sql.OrderByDirection | core/SqlQuery.php:174-175 | ORDER BY ends with the direction keyword between spaces: ASC for SORT_ASC, DESC otherwise |
| Sql.LimitText | core/SqlQuery.php:185-188 | Begins with `LIMIT ` and ends in a space |
| Sql.JoinText | core/SqlQuery.php:198-201 | Begins with the upper-cased join type and ` JOIN `, and ends in a space |
| Sql.InsertText | core/SqlQuery.php:210-214 | Begins with `INSERT INTO ` and ends with the `) ` closing the column list |
| Sql.ValuesText | core/SqlQuery.php:222-226 | Begins with `VALUES (` and ends with `) `; no values give `VALUES () ` |
| Sql.OptTruthy | core/SqlQuery.php:109 | `if ($extraOpt)` for a nullable string: false for null, "" and "0"; AggregationUsesFirstColumn and the Select rows use it |
| Sql.SetText | core/SqlQuery.php:248-252 | Begins with `SET ` and ends in a space; one column gives its single assignment |
| Sql.UpdateText | core/SqlQuery.php:236-239 | `UPDATE `, the trimmed table and one closing space |
| Sql.DeleteText | core/SqlQuery.php:263-266 | `DELETE FROM `, the trimmed table and one closing space |
| Sql.QuotedValues | core/SqlQuery.php:223-225 | Each value of `values` in single quotes, nothing escaped, in order |
| Sql.Quote | core/SqlQuery.php:224 | One value inside single quotes with nothing escaped; QuotedValues applies it to each value |
| Sql.Assignments | core/SqlQuery.php:249-251 | One `key = :key` per key of `set`, trimmed, in key order |
| Sql.Assignment | core/SqlQuery.php:250 | One `key = :key` with the trimmed key text on both sides; Assignments applies it to each key |
| Sql.StrList | core/SqlQuery.php:212 | The array `insert` stores as parameters: the columns keyed 0, 1, ... |
| Sql.ExecCalls | core/SqlQuery.php:276-296 | exec calls nothing without a connection. Otherwise it begins, then prepares, executes, reads the insert id and commits for as long as each step succeeds. It ends with commit exactly when the round commits and with rollBack exactly when a step fails; each call is present exactly when its step is reached |
| Sql.ExecOutcome | core/SqlQuery.php:276-296 | exec completes exactly when there is a connection, execute succeeds and the commit goes through. A failure of prepare, execute, lastInsertId or commit is rethrown. A driver failure at begin is replaced by rollBack's "no active transaction" exception; a begin refused because a transaction is already open is rethrown after the rollback. With no connection the rollBack call on null raises |
| Sql.SqlQuery.constructor | core/SqlQuery.php:26-50 | A new builder holds the connection, an empty text, no parameters, no data and no statement |
| Sql.SqlQuery.SetQuery | core/SqlQuery.php:58-61 | The text becomes the argument; nothing else changes |
| Sql.SqlQuery.AppendQuery | core/SqlQuery.php:69-72 | The argument is appended to the text; nothing else changes |
| Sql.SqlQuery.AppendParamData | core/SqlQuery.php:81-85 | params and data become array_merge of the old ones with the arguments |
| Sql.SqlQuery.Select | core/SqlQuery.php:95-99 | Appends SELECT or SELECT DISTINCT, then the aggregation or column text; only the text changes |
| Sql.SqlQuery.HandleAggregation | core/SqlQuery.php:108-124 | With a truthy aggregate, appends its upper-cased name over the first trimmed column or `*`; otherwise the column list |
| Sql.SqlQuery.AppendAggregate | core/SqlQuery.php:114-119 | Appends `NAME(` and then `col) ` or `* ) ` |
| Sql.SqlQuery.AppendColumns | core/SqlQuery.php:132-138 | Appends `* ` for no columns, else the trimmed columns joined by `, ` and a space |
| Sql.SqlQuery.From | core/SqlQuery.php:146-149 | Appends `FROM table `; only the text changes |
| Sql.SqlQuery.Where | core/SqlQuery.php:158-164 | Appends `WHERE cond `; with data it then raises, at the call of the undefined indexParamData; only the text changes |
| Sql.SqlQuery.OrderBy | core/SqlQuery.php:173-176 | Appends `ORDER BY col ASC|DESC `; only the text changes |
| Sql.SqlQuery.Limit | core/SqlQuery.php:185-188 | Appends `LIMIT max OFFSET offset ` without checking either number; only the text changes |
| Sql.SqlQuery.Join | core/SqlQuery.php:198-201 | Appends the upper-cased type, JOIN, the trimmed table, ON and the trimmed condition; only the text changes |
| Sql.SqlQuery.Insert | core/SqlQuery.php:210-214 | Appends `INSERT INTO table (cols) ` and replaces params by the column list |
| Sql.SqlQuery.Values | core/SqlQuery.php:222-228 | Appends the quoted values and replaces data |
| Sql.SqlQuery.Update | core/SqlQuery.php:236-239 | Appends `UPDATE table `; only the text changes |
| Sql.SqlQuery.Set | core/SqlQuery.php:248-255 | Appends SET and the assignments, merges the columns into params and replaces data |
| Sql.SqlQuery.Delete | core/SqlQuery.php:263-266 | Appends `DELETE FROM table `; only the text changes |
| Sql.SqlQuery.Exec | core/SqlQuery.php:276-296 | Runs the text with array_merge(params, extraData) bound, making the calls ExecCalls lists and ending as ExecOutcome says. The statement is set once execute succeeds and the insert id once it is read, even when a later step fails; otherwise both stay. On success it resets when asked. On failure text, params and data are unchanged |
| Sql.SqlQuery.ResetQuery | core/SqlQuery.php:303-308 | Empties the text, params and data and drops the statement |
| Sql.AggregationUsesFirstColumn | core/SqlQuery.php:115-116 | An aggregate looks only at the first column |
| Sql.UnknownAggregateIsCount | core/SqlQuery.php:111-113 | Any truthy aggregate name outside count, avg and sum gives the same text as count |
| Sql.CountIsAggregate | core/SqlQuery.php:110 | count is kept as it is |
| Sql.AggregateIgnoresCase | core/SqlQuery.php:109 | The aggregate chosen does not depend on the case of its name |
| Sql.NoAggregateSelectsColumns | core/SqlQuery.php:120-122 | Without a truthy aggregate (none, "" or "0") the plain column text is used |
| Sql.ColumnsRoundTrip | core/SqlQuery.php:132-138 | The trimmed columns can be read back from the column text when none contains a comma |
| Sql.ValuesRoundTrip | core/SqlQuery.php:222-228 | VALUES text: prefix, suffix, and the quoted values read back in order when none contains a comma |
| Sql.SetRoundTrip | core/SqlQuery.php:248-255 | SET text: prefix, trailing space, and one assignment per key read back in order |
| Routing.DefaultHandler | core/Router.php:73 | A callable is stored as is; a class name becomes a name that starts with the class and `::` |
| Routing.ParamInfos | core/Router.php:104-120 | One record per match of the parameter pattern, in order |
| Routing.ParamInfoOf | core/Router.php:109-117 | One record: the lower-cased type (null when empty or "0"), the name, and `[0-9]+` for type int or `.+` otherwise; ParamInfos lists one per match |
| Routing.ParamKeys | core/Router.php:138 | The i-th capture is stored under the i-th recorded name, or "" past the last one |
| Routing.ParamKey | core/Router.php:138 | The key of the i-th capture: the i-th recorded name, or "" past the last one; ParamKeys collects them |
| Routing.FirstMatch | core/Router.php:57-62 | The first index at or after a start whose route is accepted, every earlier one rejected, or none when no route is accepted |
| Routing.ExtractMethod | core/Router.php:82-90 | A callable registers main; for a string, see ExtractMethodOfPair and ExtractMethodWithoutPair |
| Routing.IsValidRequestMethod | core/Router.php:143-146 | With no REQUEST_METHOD only the empty method name is accepted; the request's own method is always accepted; RequestMethodIgnoresCase gives the case rule |
| Routing.RoutePattern | core/Router.php:122-132 | The pattern starts with `/^` and ends with `$/i`; GenerateRoutePattern states that each '/' of the body is escaped |
| Routing.Placeholder | core/Router.php:126 | The text `{type:name}` that generateRoutePattern replaces, with a null type written as nothing; PlaceholderAbsent states when a replacement leaves the route alone |
| Routing.Substituted | core/Router.php:124-130 | Each parameter's placeholder replaced by its parenthesised pattern, one after another in order; RoutePattern wraps the result |
| Routing.ParametersFrom | core/Router.php:134-141 | The parameters after n captures; ParametersFromLast, ParametersFromKeys and ParametersFromDistinct state what they hold |
| Routing.Matches | core/Router.php:92-102 | The route's pattern matches the path and its HTTP method is the request's; Router.MatchRoute computes it |
| Routing.ParseRouteParams | core/Router.php:104-120 | The loop builds exactly the records of ParamInfos |
| Routing.GenerateRoutePattern | core/Router.php:122-132 | The loop substitutes every placeholder in order. The result is `/^`, the '/'-trimmed body with every '/' escaped, then `$/i` |
| Routing.ExtractParameters | core/Router.php:134-141 | The loop stores capture after capture under its recorded name (ParametersFrom) |
| Routing.ParametersFromDistinct | core/Router.php:134-141 | The parameters never repeat a key and have at most one entry per capture |
| Routing.ParametersFromStep | core/Router.php:137-138 | One more capture is one more assignment |
| Routing.ParametersFromKeys | core/Router.php:138 | Every parameter name is the name of one of the captures |
| Routing.ParametersFromLast | core/Router.php:137-139 | Under each name is the last capture stored under it |
| Routing.ParametersByName | core/Router.php:134-141 | With distinct names, there is one entry per capture and each capture is found under its own name |
| Routing.ParametersFromLength | core/Router.php:134-141 | With distinct names, n captures make n entries |
| Routing.ParametersFromGrows | core/Router.php:138 | A capture under a name not used before adds an entry |
| Routing.PutKeysFrom | core/Router.php:138 | An assignment adds at most its own key to the keys of the parameters |
| Routing.PutNewKey | core/Router.php:138 | An assignment under a new key adds an entry |
| Routing.PutMember | core/Router.php:138 | Each entry after an assignment is an old entry or the one assigned |
| Routing.Router.constructor | core/Router.php:17-21 | A new router has no routes, no parameters and no default handler |
| Routing.Router.AddRoute | core/Router.php:23-32 | route appends exactly one record with the method upper-cased and the method name given or extracted; earlier records stay |
| Routing.Router.Get | core/Router.php:34-37 | get registers the route under GET |
| Routing.Router.Post | core/Router.php:39-42 | post registers the route under POST |
| Routing.Router.Put | core/Router.php:44-47 | put registers the route under PUT |
| Routing.Router.Delete | core/Router.php:49-52 | delete registers the route under DELETE |
| Routing.Router.Default | core/Router.php:71-74 | The default handler stored is the callable, or `Class::method` with method defaulting to main |
| Routing.Router.MatchRoute | core/Router.php:92-102 | Matches exactly when the pattern matches the path and the HTTP method is the request's; on a match the parameters are the captures by name, otherwise they stay |
| Routing.Router.Run | core/Router.php:54-64 | Dispatches exactly the first registered route that matches the '/'-trimmed path. The parameters are then the captures of that route's pattern stored under their names (ParametersFrom). Otherwise falls back to the default handler with the parameters untouched |
| Routing.Router.GetParams | core/Router.php:66-69 | The parameters stored by the last successful match; Router.Run states what they are |
| Routing.AddRouteKeepsFirstMatch | core/Router.php:26-31 | Registering another route does not change which earlier route a request dispatches to |
| Routing.FirstMatchAt | core/Router.php:57-62 | The first accepted route is the least accepted index |
| Routing.RequestMethodIgnoresCase | core/Router.php:143-146 | The HTTP method comparison ignores case on both sides |
| Routing.ExtractMethodOfPair | core/Router.php:82-90 | A `Class::method()` controller registers method |
| Routing.ExtractMethodWithoutPair | core/Router.php:82-90 | A controller string without `::` registers main |
| Routing.DefaultHandlerSplits | core/Router.php:73 | The stored `Class::method` splits back at `::` into the class and the method |
| Routing.ParamInfoAsWritten | core/Router.php:110-116 | Reading groups 1 and 2 makes every pattern `.+`, records the type word as the name, and gives a type exactly when the template has one |
| Routing.TemplateKeptLiterally | core/Router.php:124-130 | For templates without `::` or `{:`, no placeholder that generateRoutePattern looks for occurs, so the template is kept as written |
| Routing.PlaceholderAbsent | core/Router.php:124-130 | A parameter's placeholder holds `{:` or `::`, so it does not occur in a template holding neither |
| Routing.SliceOccurs | core/Router.php:125-129 | Where a searched string occurs, each piece of it occurs |
| Sessions.Segments | core/Session.php:40 | Path text trimmed of whitespace, then of '.', then split at '.': at least one segment |
| Sessions.Path | core/Session.php:40-46 | The keys of a path, one per segment, never none |
| Sessions.KeysOf | core/Session.php:42-46 | Each segment becomes the key PHP makes of it |
| Sessions.SegmentsJoin | core/Session.php:40 | The segments joined with '.' give back the normalised path text |
| Sessions.SegmentsOfDottedPath | core/Session.php:40 | Non-empty, dot-free segments joined by '.' split back into exactly those segments |
| Sessions.GetValue | core/Session.php:63-81 | get fails exactly when the walk does, never returns an empty array (null instead), and otherwise returns the value found |
| Sessions.Lookup | core/Session.php:69-74 | The walk of get: the empty path finds the value itself; the only failure is array_key_exists on a value that is not an array; a missing key continues in an empty array |
| Sessions.LookupEmpty | core/Session.php:70-73 | Walking from an empty array finds an empty array whatever the path |
| Sessions.LookupAppend | core/Session.php:69-74 | A walk along p + q is the walk along p continued along q |
| Sessions.MissingKeyGivesNull | core/Session.php:70-77 | A key missing anywhere along the path makes get return null |
| Sessions.Nest | core/Session.php:39-49 | The branch set builds has one entry whose key is the path's first key |
| Sessions.LookupNest | core/Session.php:39-49 | Walking the branch along its own path finds the value |
| Sessions.SetThenGet | core/Session.php:34-51 | Setting a path whose first key is a string key absent from the session appends the branch, after which get finds the value (null for an empty array) |
| Sessions.SetIntegerKeyRenumbers | core/Session.php:34-51 | set("5.x", v) on an empty session files the branch under key 0, after which get("5.x") answers null |
| Sessions.Stored | core/Session.php:51 | The session after set: array_merge_recursive of the session and the branch, which adds at most one top-level entry |
| Sessions.SetBesideExistingLeaf | core/Session.php:34-51 | set("user.b", 2) after set("user.a", 1): get finds 2 at user.b and still finds 1 at user.a |
| Sessions.MergeBranchThenLookup | core/Session.php:51 | Merging set's branch for a fresh path into an array stores the value where the path leads, through the existing arrays |
| Sessions.MergeBranchKeepsSiblings | core/Session.php:51 | Merging set's branch for a fresh path leaves every other key of each array along the path as it was, at every depth |
| Sessions.NestOffPath | core/Session.php:39-49 | Walking set's branch off its own path at any depth finds an empty array |
| Sessions.RenumberedWalk | core/Session.php:51 | The renumbering of the session by array_merge_recursive changes no walk that begins with a string key |
| Sessions.SetFreshThenGet | core/Session.php:34-51 | For a path of string keys whose walk goes through existing arrays to a missing key, get after set finds the value (null for an empty array) |
| Sessions.SetFreshKeepsSiblings | core/Session.php:34-51 | For such a path, set leaves each sibling along it (a key other than the path's own, at any depth; a string key at the top) as get saw it |
| Sessions.SetKeepsOtherStrings | core/Session.php:51 | For a path whose first key is a string key, set leaves every other string key of the session as it was |
| Sessions.SetExistingScalarMakesList | core/Session.php:51 | Setting a key that holds a scalar makes a list of the old and the new value |
| Sessions.UnsetIn | core/Session.php:106-119 | The unset walk yields an array or a failure |
| Sessions.UnsetResult | core/Session.php:98-119 | What unset computes for its argument: an array on success; the only failure is array_key_exists on a value that is not an array |
| Sessions.Ensured | core/Session.php:107-109 | A missing key is created as an empty array at the end; a present key leaves the array unchanged |
| Sessions.UnsetGuard | core/Session.php:100 | The guard holds for every argument |
| Sessions.UnsetText | core/Session.php:98-103 | The path text unset splits: a missing argument (null) is trimmed to "" |
| Sessions.UnsetThenGet | core/Session.php:106-115 | After a successful unset, walking the same path finds an empty array, so get answers null |
| Sessions.UnsetKeepsSiblings | core/Session.php:111-113 | unset leaves every key beside the path's first key alone |
| Sessions.LookupStep | core/Session.php:69-74 | One step of the get walk |
| Sessions.UnsetStep | core/Session.php:106-119 | One step of the unset walk above the last key |
| Sessions.UnsetKeepsDivergentPaths | core/Session.php:106-119 | Every path that leaves the unset path before its last key sees the same value before and after unset |
| Sessions.UnsetChild | core/Session.php:106-119 | A successful unset above the last key went through an array and succeeded one level down |
| Sessions.DivergeBelow | core/Session.php:106-119 | Agreement one level down carries to the top |
| Sessions.DivergeHere | core/Session.php:111-113 | A path leaving at the first key sees the same value |
| Sessions.UnsetOfEmpty | core/Session.php:107-113 | Unsetting in an empty session leaves the chain of created keys behind, each holding an empty array |
| Sessions.Rebuild | core/Session.php:113 | Writing results back through the walked arrays passes a failure through and keeps an array an array |
| Sessions.DescendStep | core/Session.php:117 | Descending one level moves the array and its key into a new frame |
| Sessions.RebuildStep | core/Session.php:113 | Rebuilding one frame sets its key to the inner array |
| Sessions.Session.constructor | core/Session.php:16 | The session starts with the given contents |
| Sessions.Session.Set | core/Session.php:36-53 | The session becomes array_merge_recursive of itself with the branch for the path |
| Sessions.Session.Get | core/Session.php:60-82 | Returns GetValue of the path and leaves the session alone |
| Sessions.Session.IsExist | core/Session.php:88-91 | Holds exactly when get finds something other than null; fails when get fails |
| Sessions.Session.Unset | core/Session.php:98-125 | On success the rebuilt array replaces the session and the result is true; a failure leaves the session alone |
| Sessions.Session.UnsetPath | core/Session.php:101-119 | The walk down, the removal of the last key and the write-back compute UnsetIn |
| Sessions.Session.Destroy | core/Session.php:130-134 | session_unset empties the session |
| Databases.Setting | core/Database.php:135-137 | `$config[$name]` inside interpolation: the stored value when present |
| Databases.WithConfig | core/Database.php:88-92 | setConfig changes only a name already present, to the new value; an unknown name changes nothing; the key set is kept |
| Databases.ValidateConfig | core/Database.php:111-113 | Holds exactly when type, host, user and password are all set and not null |
| Databases.Dsn | core/Database.php:135-138 | type:host=H;port=P;charset=C, followed by ;dbname=D exactly when dbname is truthy and not `*` |
| Databases.NamesDatabase | core/Database.php:136 | The DSN names a database exactly when dbname is truthy and not `*`; Dsn uses it |
| Databases.DsnBase | core/Database.php:135 | `type:host=H;port=P;charset=C` for the configuration; Dsn begins with it |
| Databases.CreateConfig | core/Database.php:118-120 | array_merge of the settings and a custom configuration, never shorter than the settings; CustomValuesWin states which value each key holds |
| Databases.ConnectConfig | core/Database.php:126-128 | A truthy name merges in its custom configuration (none stored counts as empty), otherwise the settings are merged with themselves; DefaultConnectConfig and MissingCustomConfig state its results |
| Databases.DefaultKeysDistinct | core/Database.php:21-32 | The built-in settings name each setting once |
| Databases.DefaultSettingAt | core/Database.php:21-32 | Each built-in setting is found under its own name |
| Databases.DefaultConfigValid | core/Database.php:21-32 | The built-in settings pass validateConfig and have only string keys |
| Databases.DefaultStringKeyed | core/Database.php:21-32 | The built-in settings have only string keys |
| Databases.DefaultSettings | core/Database.php:22-28 | The built-in type, host, dbname, port and charset |
| Databases.DefaultDsn | core/Database.php:135-138 | With the built-in settings the DSN is `mysql:host=localhost;port=3306;charset=utf8mb4` |
| Databases.DefaultConnectConfig | core/Database.php:126-128 | Without a custom name the settings are used as they are |
| Databases.MissingCustomConfig | core/Database.php:127 | A custom name never added falls back to the settings alone |
| Databases.CustomValuesWin | core/Database.php:118-120 | In the merged configuration a custom value wins for every key it sets; other keys keep the default |
| Databases.MergedConfigValid | core/Database.php:118-131 | A merged configuration is complete exactly when each required key is set non-null by the custom configuration or, left alone by it, set in the defaults |
| Databases.SlotKey | core/Database.php:158 | A truthy name is its own slot key; any other name means the current connection |
| Databases.CurrentKey | core/Database.php:81 | The current connection is the configuration name, or 0 when it is "" or "0" |
| Databases.QueryCalls | core/Database.php:171-185 | executeQuery calls nothing without a connection, otherwise prepare and, unless that fails, execute |
| Databases.QueryError | core/Database.php:174-184 | The message added: the no-connection text, or the driver's message exactly when the query fails |
| Databases.QueryOutcome | core/Database.php:171-185 | No call returns a statement. With a connection whose execute succeeds, returning the statement raises a TypeError, since `?PDOStatement` resolves to `Core\PDOStatement`; every other case returns null |
| Databases.QueryNeverReturnsStatement | core/Database.php:171-185 | executeQuery returns normally exactly when it records a failure message, and then returns null |
| Databases.Registry.constructor | core/Database.php:21-42 | The tables start as the built-in settings, no custom configurations and no connections; the settings are string-keyed with each key once |
| Databases.Registry.SetConfig | core/Database.php:88-92 | The settings become WithConfig of the old ones, and stay string-keyed with each key once |
| Databases.WithConfigKeepsShape | core/Database.php:88-92 | setConfig keeps the settings string-keyed with each key once, as DefaultConnectConfig and MissingCustomConfig require |
| Databases.Registry.AddCustomConfig | core/Database.php:97-99 | The named custom configuration is stored, replacing any earlier one, and the others stay |
| Databases.Registry.GetConfig | core/Database.php:104-106 | The stored setting, or false when it is missing or null |
| Databases.Database.constructor | core/Database.php:80-81 | The current connection key is set from the name; the error text starts empty |
| Databases.Database.Connect | core/Database.php:125-152 | An incomplete merged configuration raises before PDO is asked. Otherwise PDO gets the DSN, user and password; an opened connection fills the current slot and a refusal is rethrown with the slots unchanged |
| Databases.Database.GetConnection | core/Database.php:157-159 | The connection in the slot, none for a missing or closed slot |
| Databases.Database.CloseConnection | core/Database.php:217-219 | The slot is set to null, the others stay, and the slot then yields no connection |
| Databases.Database.ExecuteQuery | core/Database.php:171-185 | Reports the calls made and QueryOutcome: with a connection whose execute succeeds, a TypeError for the returned statement and the error text kept; after a failure, null with the failure message appended to the error text |
| Databases.Database.GetErrorInfo | core/Database.php:197-199 | The accumulated error text; ExecuteQuery states how it grows |
| ModelQueries.OptionalWhere | core/Model.php:42-44 | The WHERE fragment is present exactly when a condition is given |
| ModelQueries.AfterExec | core/Model.php:54-58 | A failure raised by exec becomes the reply; otherwise the operation goes on |
| ModelQueries.SelectAllText | core/Model.php:39 | The select of getList is `SELECT * ` |
| ModelQueries.ListQueryStart | core/Model.php:39-52 | Every list query begins with `SELECT * FROM table ` |
| ModelQueries.PlainListQuery | core/Model.php:39-52 | With no condition, no order and no positive limit the query is exactly `SELECT * FROM table ` |
| ModelQueries.NonPositiveLimitAddsNothing | core/Model.php:50-52 | A limit that is not positive, such as the default -1, adds no LIMIT |
| ModelQueries.PositiveLimitEndsQuery | core/Model.php:50-52 | A positive limit ends the query with its LIMIT fragment |
| ModelQueries.CountSelectText | core/Model.php:131 | The select of totalRowCount is `SELECT COUNT(*) ` |
| ModelQueries.CountQueryStart | core/Model.php:131-135 | The row count query begins with `SELECT COUNT(*) FROM table ` |
| ModelQueries.UpdateQueryShape | core/Model.php:91-93 | UPDATE comes first and WHERE last, with SET between |
| ModelQueries.DeleteQueryShape | core/Model.php:108-109 | delete's query is `DELETE FROM table WHERE cond ` |
| ModelQueries.UpdateBindsData | core/Model.php:92 | With string-keyed update data the parameters bound are that data, in order |
| ModelQueries.ListQuery | core/Model.php:39-52 | The getList text; ListQueryStart, PlainListQuery, NonPositiveLimitAddsNothing and PositiveLimitEndsQuery state its shape |
| ModelQueries.CountQuery | core/Model.php:131-135 | The totalRowCount text; CountSelectText and CountQueryStart state its shape |
| ModelQueries.UpdateQuery | core/Model.php:91-93 | The update text; UpdateQueryShape states its shape |
| ModelQueries.DeleteQuery | core/Model.php:108-109 | The delete text; DeleteQueryShape states it |
| ModelQueries.ByCondition | core/Model.php:64 | The `column = :id` condition of getBy and deleteBy; Model.GetBy and Model.DeleteBy show that it always takes the raising WHERE path |
| Models.Model.constructor | core/Model.php:29-33 | The model holds its connection and table, with an empty error text |
| Models.Model.GetList | core/Model.php:35-60 | WHERE with data raises before anything is sent. Otherwise exec runs the list query with nothing bound, and success goes on to the undefined fetchAll |
| Models.Model.GetBy | core/Model.php:62-68 | Always takes the raising WHERE path, since it passes data |
| Models.Model.Insert | core/Model.php:70-84 | The first builder call already needs the undefined indexParamData, so nothing is built or sent |
| Models.Model.Update | core/Model.php:87-101 | With condition data it raises. Otherwise exec runs the update query binding the merged update data, and success answers true |
| Models.Model.Delete | core/Model.php:104-118 | With data it raises. Otherwise exec runs the delete query with nothing bound, and success answers true |
| Models.Model.DeleteBy | core/Model.php:120-126 | Always takes the raising WHERE path, since it passes data |
| Models.Model.TotalRowCount | core/Model.php:128-141 | WHERE with data raises. Otherwise exec runs the count query, and success goes on to the undefined fetchColumn |
| Models.SelectFromWhere | core/Model.php:37-44 | Select, FROM and, for a condition, WHERE on a fresh builder; raises exactly for a condition with data |
| Models.ListOptions | core/Model.php:46-52 | ORDER BY for an order column, then LIMIT for a positive limit |
| Models.BuildList | core/Model.php:37-52 | On a fresh builder, getList's clause calls raise exactly for a condition with data, and otherwise build exactly ListQuery |
| Models.Model.GetErrorMessage | core/Model.php:143-145 | The error text of the model; the constructor starts it empty |
| Models.NothingToBind | core/Model.php:54 | A builder with no parameters binds none |
| ErrorPages.ErrorMessage | app/Controllers/ErrorPageController.php:42-50 | The table message for 400, 401, 403 and 404, and "" for every other code |
| ErrorPages.ErrorCode | app/Controllers/ErrorPageController.php:14-18 | A response code of 200 is reported as 404, no code as 0, any other code as it is |
| ErrorPages.ErrorRecordFor | app/Controllers/ErrorPageController.php:20-22 | The record holds the chosen code and its message |
| ErrorPages.MessageKnownExactly | app/Controllers/ErrorPageController.php:43-49 | The message is non-empty exactly for the four codes of the table, each with its own message |
| ErrorPages.OkIsReportedNotFound | app/Controllers/ErrorPageController.php:14-15 | A response that says 200 is reported as 404 Not Found |
| ErrorPages.OtherCodesKept | app/Controllers/ErrorPageController.php:16-17 | Every other code is reported as it is, with its table message |
| ErrorPages.NeverReportsOk | app/Controllers/ErrorPageController.php:14-18 | The reported code is never 200 |
| ErrorPages.TitleParts | app/Controllers/ErrorPageController.php:35 | The title is the decimal code, one space and the message, and splits back into them |
| ErrorPages.NoSpaceInDecimal | app/Controllers/ErrorPageController.php:35 | The decimal code holds no space |
| ErrorPages.StatusLineCarriesTitle | app/Controllers/ErrorPageController.php:25 | The status line is `HTTP/1.1 ` followed by the title |
| ErrorPages.NotFoundPage | app/Controllers/ErrorPageController.php:14-35 | The page for an unmatched request is titled `404 Not Found` |
| ErrorPages.TabTitle | app/Controllers/ErrorPageController.php:35 | The page title: code, space, message; TitleParts states that it splits back |
| ErrorPages.StatusLine | app/Controllers/ErrorPageController.php:25 | The header line; StatusLineCarriesTitle states that it is `HTTP/1.1 ` and the title |

## Left out

- PDO itself is not modelled: connecting, `setAttribute`, prepare, execute, transactions and `lastInsertId`. The driver's answer is a parameter, and the calls made on it are a result.
- The on-error callback of `connect` (`onErrorConnection`, `$on_error_conn`) is not modelled; a refused connection is always rethrown.
- `testConnection` is not modelled, because it issues a query on the driver.
- `getInstance` and `__destruct` are not modelled: object creation and destruction by the runtime. `Model` takes the connection its Database answers.
- Regular-expression evaluation is not modelled. The matches of the parameter pattern and the captures of a route pattern are inputs.
- `dispatch`, `handleDefault` and `basepath` are not modelled: reflection, `call_user_func`, `echo` and `$_SERVER`. `run` reports which route it dispatches or that it falls back.
- `Session::init`, `session_start` and `session_destroy` are not modelled; `destroy` is modelled as emptying the session, which is what `session_unset` does to it.
- `Session`'s by-reference cursor is not modelled. `set` builds its branch from the inside out, and `unset` records the arrays it walks and writes them back; both produce the same arrays as the by-reference walk.
- The fetch API is not modelled: `fetchAll`, `fetchColumn`, `lastInsertId()`, `indexParamData` and `getErrorInfo`, which Model calls on the builder. core/SqlQuery.php does not define them, so each call raises, and that is what is modelled. What they were meant to do has no source.
- `Model`'s `$this->error .= ...` branches cannot run: exec returns the builder (truthy) or raises. So no model method changes the error text.
- The unused builder fields `errorInfo`, `fetchNo` and `fetchData` are not modelled, and neither are the FETCH_* constants.
- The `header`, `http_response_code` and view calls of ErrorPageController are not modelled. The model computes the code, the record, the status line and the title.
- Cookie.php, Load.php, useful-functions.php, HomeController.php, routes.php, bootstrap.php and config.php are not part of this model.
- Sql.SqlQuery.Exec: the driver is taken to be in exception mode (`errmode` `exception`, the built-in setting at core/Database.php:29). In silent or warning mode a failed prepare returns false, and line 283 then raises an Error that the catch does not handle; that path is not modelled.
- Databases.Database.ExecuteQuery: the same exception mode is assumed. In silent or warning mode a failed prepare returns false, and core/Database.php:179 then raises an Error that the catch of PDOException does not handle; that path is not modelled.
- Sql.SqlQuery.Exec: the rollBack in the catch block is taken to succeed whenever a transaction is open; a rollback that itself fails is not modelled.
- Php.Value: PHP floats and objects are not modelled. Values are null, booleans, integers, strings and arrays.
- Sql.SqlQuery.Select: the columns are a list of strings. The source reads `$cols[0]` by key (core/SqlQuery.php:117), so for a string-keyed column array an aggregate gets an empty argument (`select(['a' => 'x'], 'count')` writes `COUNT() `), while the model uses the first column.
- Sql.SqlQuery.Insert: the columns are a list of strings, stored as parameters under keys 0 to n-1. The source stores the given array with its own keys (core/SqlQuery.php:212).
- PhpStrings.IsIntegerKey: integer-key text is not limited to the 64-bit range that PHP applies.
- Php.NextIndex: follows the PHP 8.3 rule (one more than the largest integer key, 0 with none); it does not model the internal next-index counter that survives `unset`.
- PHP strings are modelled as character sequences; the case functions change only ASCII letters.
- Routing: core/Router.php:73 does not parse as written, since `??` is not allowed inside a `{$…}` interpolation, so the file as a whole does not compile. Every `Routing` member models the file as it would run with line 73 written as evidently meant: `Class::method`, with `main` when no method is given.
- Routing.DefaultHandler: models that evident meaning of core/Router.php:73, not the line as written.
- Routing.Router.Default: core/Router.php:71-74 does not parse as written (`??` inside `{$…}` at line 73). The model stores the evident `Class::method`, with `main` when no method is given.
- Routing.DefaultHandlerSplits: states the split of the evident `Class::method` (default `main`), not of the line as written at core/Router.php:73, which does not parse.
