# onebase_api core rules, modelled in Dafny

This project models the rule sets at the heart of onebase_api, a
Flask/mongoengine service for a wiki-like database. Each rule set is small and
deterministic once the store, HTTP and the request body are abstracted away:

- **Audit trail** (`Historical`, `History`). A historical document keeps an
  append-only list of `Action`s (event codes `c m d r w h s`). `save` appends
  CREATE or MODIFY after a read-only check and a permission check.
  `is_readonly`/`is_hidden` are "latest decisive event wins" scans.
  `set_readonly`, `set_writable`, `hide` and `show` append and save.
  `Historical.Document` is a class whose `history` field the methods change.
  `stored` stands for the persisted, timestamp-sorted copy.
- **Permissions** (`Auth`). `all_permissions`, `is_admin`, `can_any` and
  `can_all` over a user's groups. The loops are methods proved against
  specification functions.
- **Validation endpoints** (`Validators`, `Uri`, `Json`, `Text`). `get_parts`,
  `basic_regex_validation`, `make_validation_response`, the five validation
  routes, and the `RE_INT`, `RE_FLOAT`, `RE_BOOLEAN` and `RE_URI` grammars as
  full-string predicates.
- **Soft types** (`TypeBase`, `StringType`, `ColorType`, `TypeRegistry`). The
  size cap, regex validation, mimetype-keyed handler dispatch with its
  fallback, the two shipped types, and the `TYPE_SELECTION` registration loop
  with `recursive_find` over `inspect.getclasstree`.
- **Representers** (`Representers`). `primitive_repr` and `media_repr`, with
  the request body as a parameter.
- **Paths and remote validation** (`MainModels`). `Path.__str__`,
  `Path.children`, `Node.full_path`, `Type.validate_value` and
  `Value.validate`. The validator's HTTP answer is given as a status and a
  body.
- **Comment deletion** (`Discussion`). `CommentBase.parent`,
  `Comment.delete` as a `CommentStore` class, and `Discussion.starter`. The
  `Delete` method runs the index loop over the replies of one fetched parent,
  as intended. `DeleteAsWritten` follows the code, where every
  `self.parent` fetches a new copy and the relink is lost.
- **Field grammars** (`Fields`). `SlugField` and `ForgivingURLField`.
- **Timestamp ordering** (`TimestampOrder`). The six comparison operators of
  `models/mixin.py`, and the two type-guarded ones of
  `onebase_api/models/mixin.py`.

Errors are values: `Errors.Error` names each exception the source raises.
For a `OneBaseException` it carries the error code (E-100, E-101, E-102,
E-200) and the arguments. Python's `str()`, `int()` and truth testing of
request values are modelled in `Json`. On a string, `int()` strips
surrounding white space and accepts a sign and digits with single
underscores between them. On a float it truncates, and it raises for the
infinity and NaN that `json.loads` can produce.

## Model

| member | source | states |
|---|---|---|
| Historical.LatestDecisiveIff | onebase_api/models/mixin.py:172-183 | the newest-first scan holds exactly when some `on` action has no `on` or `off` action after it |
| Historical.AppendEffect | onebase_api/models/mixin.py:201-212 | appending `on` makes the scan true, appending `off` makes it false, and any other event leaves it unchanged |
| Historical.ScanLatest | onebase_api/models/mixin.py:204-212 | the reversed loop with early returns computes the latest-decisive scan |
| Historical.Document.IsReadonly | onebase_api/models/mixin.py:201-212 | `is_readonly` is the READONLY/WRITABLE scan of the history |
| Historical.Document.IsWritable | onebase_api/models/mixin.py:214-217 | `is_writable` is the negation of `is_readonly` |
| Historical.Document.IsHidden | onebase_api/models/mixin.py:172-183 | `is_hidden` is the HIDE/SHOW scan of the history |
| Historical.Document.IsShown | onebase_api/models/mixin.py:219-222 | `is_shown` is the negation of `is_hidden` |
| Historical.SaveCheckIff | onebase_api/models/mixin.py:157-163 | `save` passes iff the user can save and the document is not read-only, or the writability override is set and the user may set writability; E-101 only on a read-only document |
| Historical.Document.Save | onebase_api/models/mixin.py:141-170 | on success exactly one action by the saver is appended, CREATE on an empty history and MODIFY otherwise, and the sorted history is stored; on failure nothing changes |
| Historical.CreatorStable | onebase_api/models/mixin.py:134-139 | once the history is non-empty, appending never changes `creator`, the user of `history[0]` |
| Historical.Document.SetReadonly | onebase_api/models/mixin.py:185-191 | E-200 with no change without 'set_writability'; otherwise READONLY is appended and the overriding save decides the rest; a failed save keeps the READONLY entry |
| Historical.SetReadonlyMakesReadonly | onebase_api/models/mixin.py:185-191 | after READONLY and the save's MODIFY, the document is read-only |
| Historical.Document.SetWritable | onebase_api/models/mixin.py:193-199 | as written: READONLY is appended, so a successful call leaves the document read-only |
| Historical.SetWritableAsWrittenLeavesReadonly | onebase_api/models/mixin.py:193-199 | the history `set_writable` produces is read-only whatever came before |
| Historical.SetWritableCounterexample | onebase_api/models/mixin.py:198 | on a read-only document `set_writable` leaves it read-only, where appending WRITABLE would make it writable |
| Historical.Document.SetWritableIntended | onebase_api/models/mixin.py:193-199 | with WRITABLE appended, a successful call makes the document writable |
| Historical.SetWritableIntendedMakesWritable | onebase_api/models/mixin.py:193-199 | after WRITABLE and the save's MODIFY, the document is writable |
| Historical.Document.Hide | onebase_api/models/mixin.py:224-233 | E-200 without 'set_visibility'; True with no change when already hidden; otherwise MODIFY is appended and saved, so visibility never changes |
| Historical.Document.Show | onebase_api/models/mixin.py:235-244 | E-200 without 'set_visibility'; True with no change when already shown; otherwise MODIFY is appended and saved, so visibility never changes |
| Historical.VisibilityAsWrittenUnchanged | onebase_api/models/mixin.py:231-233 | appending MODIFY and saving leaves `is_hidden` as it was |
| Historical.HideCounterexample | onebase_api/models/mixin.py:231 | a freshly created document stays shown after `hide`, where appending HIDE would hide it |
| Historical.Document.HideIntended | onebase_api/models/mixin.py:224-233 | with HIDE appended, a successful call leaves the document hidden |
| Historical.Document.ShowIntended | onebase_api/models/mixin.py:235-244 | with SHOW appended, a successful call leaves the document shown |
| Historical.VisibilityIntended | onebase_api/models/mixin.py:224-244 | HIDE then MODIFY hides, SHOW then MODIFY shows |
| Historical.Document.AppendAndSave | onebase_api/models/mixin.py:230-233 | appends the action, then the history and store are those of the save that follows |
| History.EventCodes | onebase_api/models/history.py:43-59 | seven events; each code parses back to its event; codes are pairwise distinct; only the seven codes parse |
| History.ValidateActionSpec | onebase_api/models/history.py:61-63 | an action validates iff user and event are present and the event is one of the codes; a stored action validates to itself; a missing timestamp takes the import-time default |
| History.DefaultActionsTie | onebase_api/models/history.py:63 | two actions with the default timestamp are neither `<` nor `>` each other |
| History.InsertPermutes | onebase_api/models/mixin.py:131-132 | inserting into the sorted history keeps every action and adds one |
| History.InsertLowerBound | onebase_api/models/mixin.py:131-132 | insertion keeps a common lower bound on the timestamps |
| History.InsertSorted | onebase_api/models/mixin.py:131-132 | inserting into a timestamp-sorted list keeps it sorted |
| History.SortByTimestampSpec | onebase_api/models/mixin.py:131-132 | the stored history is sorted by timestamp and a permutation of the history |
| History.InsertLast | onebase_api/models/mixin.py:131-132 | an action no earlier than all others goes last |
| History.SortKeepsSortedOrder | onebase_api/models/mixin.py:131-132 | sorting an already sorted history keeps its order |
| History.InsertStable | onebase_api/models/mixin.py:131-132 | inserting into a sorted list places the action after every action with the same timestamp |
| History.SortStable | onebase_api/models/mixin.py:131-132 | the sort is stable: for every timestamp, the actions carrying it appear in the stored history in their order in the history |
| History.DefaultTimestampsKeepAppendOrder | onebase_api/models/history.py:63 | actions that all carry the import-time default keep their append order when sorted |
| TimestampOrder.OperatorsAgree | models/mixin.py:37-53 | `!=` is the negation of `==`, `>=` is `>` or `==`, `<=` is `<` or `==`, and `>` is the converse of `<` |
| TimestampOrder.Trichotomy | models/mixin.py:37-50 | for any two objects exactly one of `<`, `==` and `>` holds |
| TimestampOrder.EqualTimestampsCompareEqual | models/mixin.py:49-50 | objects with equal timestamps compare equal under all six operators, whatever their other fields |
| TimestampOrder.GuardedOperators | onebase_api/models/mixin.py:97-103 | the guarded `__gt__` and `__lt__` compare timestamps exactly when the other object is an instance of the receiver's class (subclasses included) and are false otherwise; on two objects of one class they agree with the plain comparison |
| TimestampOrder.SubclassMethodsOneWay | onebase_api/models/mixin.py:97-103 | called as methods on a base-class object and a subclass object, the base object's method compares and the subclass object's method refuses |
| TimestampOrder.GuardedExpressions | onebase_api/models/mixin.py:97-103 | written `a > b` and `a < b`, with the reflected method of a subclass right operand called first, the guarded operators agree with the plain ones on one class and are both false across distinct classes, subclasses included |
| Auth.User.GenerateApiKey | onebase_api/models/auth.py:110-111 | the API key becomes the given token |
| Auth.User.AllPermissions | onebase_api/models/auth.py:113-119 | the loop concatenates each group's permissions in group order |
| Auth.AllPermissionsMembership | onebase_api/models/auth.py:113-119 | a permission is listed iff some group grants it |
| Auth.AllPermissionsKeepsDuplicates | onebase_api/models/auth.py:113-119 | the list is as long as all groups' permission lists together, so duplicates are kept |
| Auth.IsAdminIff | onebase_api/models/auth.py:121-124 | `is_admin` iff some group's name is an admin group |
| Auth.User.CanAny | onebase_api/models/auth.py:126-139 | the early-return loop computes `can_any` |
| Auth.User.CanAll | onebase_api/models/auth.py:141-156 | the early-return loop computes `can_all` |
| Auth.AdminCanEverything | onebase_api/models/auth.py:133-134 | an admin passes `can_any` and `can_all` for any argument list, the empty one included |
| Auth.EmptyArguments | onebase_api/models/auth.py:135-156 | for a non-admin, `can_any()` is false and `can_all()` is true |
| Auth.CanAllImpliesCanAny | onebase_api/models/auth.py:126-156 | for a non-empty argument list, `can_all` implies `can_any` |
| Auth.PermissionExamples | onebase_api/models/auth.py:113-156 | two groups granting p1 and p2: all permissions `[p1, p2]`, not admin, can all of them, can any of p1 and an unknown one, not any of two unknown ones; an 'admin' group is admin; no groups grant nothing |
| Validators.MakeValidationResponse | onebase_api/api/validators.py:66-81 | `ok_status` iff valid, `error_status` otherwise |
| Validators.GetPartsSpec | onebase_api/api/validators.py:83-88 | E-102 naming 'value' when it is missing or falsy, else naming 'size'; success iff both are truthy and `int(size)` succeeds, with `(str(value), int(size))` |
| Validators.BasicRegexValidationSpec | onebase_api/api/validators.py:90-108 | E-100 iff too long; E-101 iff it fits and does not match; True iff strictly shorter and matching; False iff exactly as long and matching |
| Validators.RespondSpec | onebase_api/api/validators.py:62-81 | a route answers 200 iff the validation returned True, and 500 otherwise, raised errors included |
| Validators.IntGrammar | onebase_api/api/validators.py:44 | every rendered integer is accepted by `RE_INT`, and whatever it accepts converts with `int()` |
| Validators.IntExamples | onebase_api/api/validators.py:44 | `-42` and `007` are integers; '', '-', '+1' and '1.5' are not |
| Validators.FloatAt | onebase_api/api/validators.py:46 | optional '-', digits, '.', digits is a float |
| Validators.FloatExamples | onebase_api/api/validators.py:46 | `3.14` and `-0.5` are floats; '3.', '.5' and '1e5' are not |
| Validators.BooleanExamples | onebase_api/api/validators.py:45 | TRUE, False, 0 and the long-s spelling of false are booleans; 'yes' and '' are not |
| Validators.IntRouteAccepts | onebase_api/api/validators.py:129-145 | a non-zero integer with a size one more than its length answers 200 |
| Validators.ZeroValueRejected | onebase_api/api/validators.py:83-88 | a value of 0 counts as missing: E-102 and a 500 answer |
| Validators.StrRouteRejectsShortSize | onebase_api/api/validators.py:148-166 | a string as long as the size or longer answers 500 |
| Validators.StrRouteAccepts | onebase_api/api/validators.py:148-166 | for a non-empty string and a non-zero size, 200 iff the string is shorter than the size |
| Json.IntRoundTrip | onebase_api/api/validators.py:88 | `int(str(i)) == i` for every integer |
| Json.ParseIntRoundTrip | onebase_api/api/validators.py:88 | the text of `str(i)` parses back to `i` and is a sign or digit followed by digits |
| Json.IntIgnoresPadding | onebase_api/api/validators.py:88 | `int()` gives the same answer for a string with white space added around it |
| Json.UnderscoreSeparator | onebase_api/api/validators.py:88 | an underscore between two digit groups is accepted and does not change the value |
| Json.ToIntPaddedExamples | onebase_api/api/validators.py:88 | `int(" 5") == 5` and `int("-7\n") == -7` |
| Json.ToIntUnderscoreExample | onebase_api/api/validators.py:88 | `int("1_0") == 10` |
| Json.RejectsDoubleUnderscore | onebase_api/api/validators.py:88 | two underscores in a row are a ValueError |
| Json.RejectsLeadingUnderscore | onebase_api/api/validators.py:88 | a leading underscore is a ValueError |
| Json.RejectsTrailingUnderscore | onebase_api/api/validators.py:88 | a trailing underscore is a ValueError |
| Json.RejectsSpaceAfterSign | onebase_api/api/validators.py:88 | white space between the sign and the digits is a ValueError |
| Json.RejectsBlank | onebase_api/api/validators.py:88 | a string of white space alone, the empty one included, is a ValueError |
| Json.RejectsDot | onebase_api/api/validators.py:88 | a decimal point is a ValueError |
| Text.StripLeft | onebase_api/api/validators.py:88 | the result is the suffix left after dropping every leading character `int()` skips (ASCII space, tab and line and page breaks, NEL, no-break space; not U+001C..U+001F), and does not start with one |
| Text.StripRight | onebase_api/api/validators.py:88 | the result is the prefix left after dropping every trailing character `int()` skips, the same set as for StripLeft, and does not end with one |
| Text.StripIgnoresPadding | onebase_api/api/validators.py:88 | white space added around a string does not change its strip |
| Validators.StrRouteParsedSize | onebase_api/api/validators.py:83-88 | a size string that `int()` reads as n gives the parts (value, n), and the route answers 200 iff the value is shorter than n |
| Validators.StrRouteTextSize | onebase_api/api/validators.py:148-166 | a size written as an integer with white space around it is read as that integer |
| Validators.PaddedSizeExample | onebase_api/api/validators.py:148-166 | the body with value 'ab' and size ' 5' gives the parts ('ab', 5) and answers 200 |
| Json.RejectsInfoSeparator | onebase_api/api/validators.py:88 | a string starting with one of U+001C..U+001F is a ValueError for `int()`, although `str.isspace()` counts them as white space |
| Json.FloatToInt | onebase_api/api/validators.py:88 | `int()` of a float succeeds exactly when it is finite, with the truncated value; infinity raises OverflowError and NaN ValueError; only a finite zero is falsy |
| Validators.UnreadableSize | onebase_api/api/validators.py:83-88 | a truthy size that `int()` cannot read makes `get_parts` fail with that error, so `validate_str` and every regex route answer 500 |
| Validators.SeparatorSizeExample | onebase_api/api/validators.py:148-166 | the body with value 'ab' and size '\u001c5' answers 500 |
| Validators.NonFiniteSize | onebase_api/api/validators.py:83-88 | a size that `json.loads` reads as infinity (`1e400`, `Infinity`) or NaN makes every route answer 500 |
| Uri.EmptyMatches | fields.py:22-26 | every part of `RE_URI` is optional, so '' matches |
| Uri.SinglePair | fields.py:25 | `key=value` is a query pair when the key has no '=' and the value no '&' |
| Uri.ConsPair | fields.py:25 | a pair followed by more pairs is a pair sequence |
| Uri.QueryOfPairs | fields.py:25 | '?' followed by pairs is a query |
| Uri.DomainQuery | fields.py:22-26 | a domain followed by a query matches |
| Uri.PathQuery | fields.py:22-26 | a path followed by an optional query matches |
| Uri.PathExample | fields.py:36 | '/path/to/file/' matches |
| Uri.FormatQuery | fields.py:37 | '?format=jpeg' is a query |
| Uri.PathQueryExample | fields.py:37 | '/path/to/file/?format=jpeg' matches |
| Uri.ParamQuery | fields.py:38 | '?param=1&other=2' is a query |
| Uri.ExampleDomain | fields.py:38 | 'example.com' is a domain |
| Uri.DomainQueryExample | fields.py:38 | 'example.com?param=1&other=2' matches |
| Uri.NotProtocol | fields.py:22 | a string holding a character that is not a word character, ':' or '/' is not a protocol |
| Uri.ForeignCharacterRejected | fields.py:22-26 | a character outside word characters, '-', '.', '/' and ':' before any '?' makes the URL fail |
| Uri.FlavoursDiffer | onebase_api/api/validators.py:51-55 | the validators' path part accepts '/a b', the fields' one does not |
| Fields.SlugValidate | fields.py:28 | accepted iff non-empty and every character is a lower-case letter, a digit, '_' or '-' |
| Fields.SlugExamples | fields.py:53-54 | 'my-name' and 'my_name' are slugs |
| Fields.SlugConcat | fields.py:28 | two slugs joined form a slug |
| Fields.SlugWithDigit | fields.py:55 | 'the_4th_one' is a slug |
| Fields.SlugCounterExamples | fields.py:28 | upper case, a space and '' are rejected |
| Fields.SlugIsUrl | fields.py:22-28 | every slug is a valid forgiving URL |
| Fields.ForgivingUrlExamples | fields.py:34-45 | the three documented URLs and '' are accepted |
| Fields.SpaceRejected | fields.py:23-25 | a space before any '?' makes the URL invalid |
| TypeBase.BaseValidateSpec | onebase_api/models/types/_base.py:18-29 | never False; True iff `len(str(value))` is at most 1024; a too-long string raises E-100 with its length; a too-long value without a length raises TypeError |
| TypeBase.RegexValidateSpec | onebase_api/models/types/_base.py:83-85 | True iff it fits and matches, False iff it fits and does not match, raises iff too long |
| TypeBase.BasePrepare | onebase_api/models/types/_base.py:31-38 | always NotImplementedError |
| TypeBase.PlanCallSpec | onebase_api/models/types/_base.py:40-50 | the specialised handler with the slot alone when it exists; otherwise the default handler with slot and mimetype; AttributeError when neither exists; a call fails iff the argument count does not fit the handler |
| TypeBase.HandlerName | onebase_api/models/types/_base.py:44-45 | a handler name is made of the prefix and the suffix exactly when it splits there |
| StringType.MethodLookup | onebase_api/models/types/string.py:27-37 | the handlers are `get_attrs_` for html and default, and `render_` for default |
| StringType.GetAttrsSpec | onebase_api/models/types/string.py:27-31 | html attributes are `{'type': 'text/plain'}`, other mimetypes `{}`, and a mimetype whose method name is 'default' fails |
| StringType.RenderAsWritten | onebase_api/models/types/string.py:36 | rendering succeeds only for the 'default' method name; any other mimetype reaches `render_default` with an extra positional argument and raises TypeError |
| StringType.RenderIntended | onebase_api/models/types/string.py:36-37 | with `render_default` accepting the mimetype, rendering yields `str(value)` |
| StringType.RenderCounterexample | onebase_api/models/types/_base.py:66-73 | rendering with the default mimetype fails as written, while the intended render gives the same text as `prepare` |
| ColorType.Prepare | onebase_api/models/types/color.py:46-47 | `prepare` returns its argument unchanged |
| ColorType.ValidateSpec | onebase_api/models/types/color.py:44 | a string within the size cap validates exactly when it is '#' followed by 6 to 8 word characters |
| ColorType.ColorExamples | onebase_api/models/types/color.py:44 | '#ffffff', '#FFFFFF80' and '#zz_zzz' are colours; no '#', 5 or 9 characters, or a space are not |
| ColorType.SizesSpec | onebase_api/models/types/color.py:34-42 | six sizes in increasing order, the default 'small' among them at 75 |
| TypeRegistry.EmptyNodeFind | onebase_api/models/types/__init__.py:39-41 | `recursive_find` on an empty list is false |
| TypeRegistry.NodeOfOne | onebase_api/models/types/__init__.py:39-41 | on a one-element list it is the element's answer |
| TypeRegistry.NodeOfTwo | onebase_api/models/types/__init__.py:39-41 | on a two-element list it is either element's answer |
| TypeRegistry.NodeConcat | onebase_api/models/types/__init__.py:39-41 | on a concatenation it is the answer of either part |
| TypeRegistry.LeavesFind | onebase_api/models/types/__init__.py:39-43 | on a list of classes it holds iff one of them has the name |
| TypeRegistry.OwnEntryFind | onebase_api/models/types/__init__.py:39-43 | a class's own tree entry names the class and its bases |
| TypeRegistry.BaseEntryFind | onebase_api/models/types/__init__.py:39-43 | a base's entry names the base and its bases |
| TypeRegistry.BaseEntriesFind | onebase_api/models/types/__init__.py:39-43 | the entries of a base list name exactly those bases, their bases and the class |
| TypeRegistry.ClassTreeFind | onebase_api/models/types/__init__.py:61-63 | the class tree holds a name iff it is the class's, a base's or a base's base's |
| TypeRegistry.Register | onebase_api/models/types/__init__.py:55-74 | the registration loop computes the registry or the first exception |
| TypeRegistry.RegistryStopsAtFailure | onebase_api/models/types/__init__.py:70-74 | once an exception is raised, later classes do not matter |
| TypeRegistry.RegistryFailure | onebase_api/models/types/__init__.py:70-74 | the loop succeeds iff every eligible class has usable `NAMES`; a failure carries the first such class's error |
| TypeRegistry.RegistryEntries | onebase_api/models/types/__init__.py:58-74 | every entry is an eligible visited class filed under its key, and every eligible class's key is present |
| TypeRegistry.RegistryLastWins | onebase_api/models/types/__init__.py:74 | a class with no later class of the same key is the one filed under it |
| TypeRegistry.RegistrySnoc | onebase_api/models/types/__init__.py:55-74 | one more class is one more loop step |
| TypeRegistry.EligibleTypes | onebase_api/models/types/__init__.py:58-66 | subclasses of `TypeBase` and of `RegexValidationMixin` are types; the two skipped classes are not |
| TypeRegistry.IneligibleClasses | onebase_api/models/types/__init__.py:61-66 | a subclass of `Color` and an exception class are not types |
| TypeRegistry.FirstModule | onebase_api/models/types/__init__.py:55-74 | the string module's namespace files `StringType` under 'STRING' |
| TypeRegistry.TwoModules | onebase_api/models/types/__init__.py:48-74 | both modules' namespaces give exactly 'STRING' and 'COLOR' |
| TypeRegistry.ShippedEligibility | onebase_api/models/types/__init__.py:58-66 | `StringType` and `Color` are types; `TypeBase`, `RegexValidationMixin` and the exception class are not |
| TypeRegistry.ShippedKeys | onebase_api/models/types/__init__.py:74 | the shipped types' keys are 'STRING' and 'COLOR' |
| TypeRegistry.ShippedTypes | onebase_api/models/types/__init__.py:48-74 | the shipped modules register exactly `StringType` under 'STRING' and `Color` under 'COLOR' |
| TypeRegistry.SetNamesFail | onebase_api/models/types/__init__.py:72-74 | a `NAMES` set passes the list-like check and then fails at indexing with TypeError |
| Representers.ReturnFormatDefault | onebase_api/api/representers.py:45-49 | the format is the environment's 'return_mimetype' when present, else json |
| Representers.PrimitiveReprSpec | onebase_api/api/representers.py:41-56 | an answer iff the format is json, html or plain text: `{'repr': str(value)}` for json, raw `str(value)` with the format as mimetype otherwise |
| Representers.MediaReprSpec | onebase_api/api/representers.py:59-88 | html fails iff 'scale' is given; json without a static url is `{'image': str(value)}`; png is an empty response; other formats give None |
| Representers.MediaReprContents | onebase_api/api/representers.py:67-85 | html is the 20px tag with the static url (default '') and `str(value)`; json is `{'image': static_url + str(value)}`, a TypeError when the url is not a string |
| Representers.MediaHtmlExample | onebase_api/api/representers.py:71-81 | an html request with static url '/static/' renders `<img src="/static/a.png" height="20px"/>` |
| MainModels.ValidateValueSpec | onebase_api/models/main.py:56-69 | as written, a value is accepted iff the validator does not answer 200; the exception carries the response body |
| MainModels.ValidateValueInverted | onebase_api/models/main.py:63-68 | the code accepts exactly what the documented rule rejects |
| MainModels.ValidateValueCounterexample | onebase_api/models/main.py:67-68 | a 200 answer raises, where the documented rule returns True |
| MainModels.ValidateValueIntended | onebase_api/models/main.py:56-69 | the documented rule: True on 200, an exception otherwise |
| MainModels.Join | onebase_api/models/main.py:86 | POSIX `join`: an absolute name replaces the base; otherwise it is appended, with a '/' unless the base is empty or ends in one |
| MainModels.Names | onebase_api/models/main.py:82-86 | the root-to-element names end with the element's own name |
| MainModels.PathStrAbsolute | onebase_api/models/main.py:82-86 | every rendered path starts with '/' |
| MainModels.PathStrChain | onebase_api/models/main.py:82-86 | with '/'-free names the rendering is the names from the root down, each after a '/' |
| MainModels.SlashedEndsWith | onebase_api/models/main.py:86 | such a rendering does not end in '/' |
| MainModels.ThreeLevels | onebase_api/models/main.py:84-86 | the chain a, b, c renders '/a/b/c' |
| MainModels.AbsoluteNameDropsParent | onebase_api/models/main.py:86 | a name starting with '/' discards everything above it |
| MainModels.Children | onebase_api/models/main.py:88-91 | `children` is always None |
| MainModels.FullPathSpec | onebase_api/models/main.py:109-111 | the full path is the rendering of the node's name placed under its path; it is absolute; for a slug under '/'-free names it is the chain ending in the node's name |
| MainModels.SlugIsSegment | onebase_api/models/main.py:104 | a slug never contains '/' |
| MainModels.ValueValidate | onebase_api/models/main.py:146-153 | passes iff the type's `validate_value` does not raise, and otherwise fails with its exception |
| Discussion.FirstHolder | onebase_api/models/discussion.py:57-59 | None iff no document of the queried kinds holds the comment in its replies; otherwise the first such in store order |
| Discussion.ParentOfCommentIsComment | onebase_api/models/discussion.py:57-59 | as written, a comment's parent is always a comment, never a placeholder |
| Discussion.ReplaceAll | onebase_api/models/discussion.py:97-103 | every reply equal to the deleted comment becomes the placeholder; all others are unchanged |
| Discussion.Placeholder | onebase_api/models/discussion.py:91-92 | the placeholder is a deleted comment with the same replies and timestamp |
| Discussion.CommentStore.Insert | onebase_api/models/discussion.py:94 | saving a new document adds it at the end of the store |
| Discussion.CommentStore.Delete | onebase_api/models/discussion.py:83-105 | the delete as intended: the store afterwards is the placeholder saved, the parent's replies relinked on one fetched parent, and the comment removed |
| Discussion.CommentStore.DeleteAsWritten | onebase_api/models/discussion.py:83-105 | as written: the placeholder is saved and the comment removed, while the parent's stored replies stay as they were, the relink having gone to a re-fetched copy |
| Discussion.FirstHolderSaved | onebase_api/models/discussion.py:57-59 | saving a document that does not hold the comment leaves the first holder found unchanged |
| Discussion.SavedParent | onebase_api/models/discussion.py:91-97 | saving the placeholder does not change the deleted comment's parent |
| Discussion.DeleteRelinksParent | onebase_api/models/discussion.py:97-103 | after the intended delete the parent's replies are its old ones with the comment replaced by the placeholder, so it lists the placeholder and no longer the comment |
| Discussion.DeleteAsWrittenKeepsDeletedReply | onebase_api/models/discussion.py:97-103 | after the delete as written the parent is unchanged and still lists the comment, whose document is gone |
| Discussion.WithoutMembers | onebase_api/models/discussion.py:105 | removing a comment keeps every other document |
| Discussion.CountSameKinds | onebase_api/models/discussion.py:105 | counts depend only on each document's kind |
| Discussion.CountWithout | onebase_api/models/discussion.py:105 | removing a document lowers its kind's count by one |
| Discussion.RelinkKeeps | onebase_api/models/discussion.py:97-103 | relinking keeps every document, its kind and its timestamp |
| Discussion.RelinkReplies | onebase_api/models/discussion.py:97-103 | relinking changes no reply other than the deleted comment and the placeholder |
| Discussion.SavedValid | onebase_api/models/discussion.py:91-94 | saving the placeholder keeps the store well formed |
| Discussion.DeleteValid | onebase_api/models/discussion.py:83-105 | deletion keeps the store well formed |
| Discussion.SavedCount | onebase_api/models/discussion.py:91-94 | saving the placeholder does not change the comment count |
| Discussion.DeleteCount | onebase_api/models/discussion.py:83-105 | deleting a comment lowers the comment count by exactly one |
| Discussion.DeletePlaceholder | onebase_api/models/discussion.py:91-105 | afterwards the comment is gone and its placeholder is stored |
| Discussion.WithoutUnique | onebase_api/models/discussion.py:105 | removal keeps the store order free of repeats |
| Discussion.ReplaceAllMembership | onebase_api/models/discussion.py:97-103 | replacement changes the membership of no other reply |
| Discussion.HoldersAfterDelete | onebase_api/models/discussion.py:83-105 | after deletion a child is held by the placeholder and by its other former holders, and by nothing else |
| Discussion.FirstHolderOnly | onebase_api/models/discussion.py:57-59 | a sole holder is the one found |
| Discussion.DeletedParentIsPlaceholder | onebase_api/tests/models/test_discussion.py:95-112 | after deleting a child's only parent, the as-written parent is None while the placeholder holds the child |
| Discussion.OnlyPlaceholderHolds | onebase_api/models/discussion.py:57-59 | when only a placeholder holds a comment, the as-written parent is None and the any-kind parent is the placeholder |
| Discussion.StarterSpec | onebase_api/models/discussion.py:117-125 | a discussion validates iff it has a starter, which is its first comment; without comments validation names 'comments' and `starter` is an IndexError |

## Left out

- Persistence: mongoengine's `save`, `objects(...)`, `delete` and `count` are an in-memory store (`CommentStore`) or a `stored` field (`Historical.Document`). No database behaviour is modelled.
- Discussion.CommentStore.Delete: this is the intended delete, with one fetched parent. The delete as written is `DeleteAsWritten`; see "Findings".
- Discussion.CommentStore.Delete: the placeholder's identity is a parameter, and replies are not re-sorted by the `SortedListField` on save.
- Discussion.CommentDoc: `ReferenceField` type checks on replies are not modelled, and `Comment` fields other than replies and timestamp (author, body) are left out.
- HTTP and Flask: `requests.post` becomes a status and a body; `request.get_json()` becomes a `Json.Body` parameter; a body that is not an object, `ApiResponse`, and the route-listing endpoints are not modelled.
- Randomness: `token_urlsafe` becomes the token parameter of `Auth.User.GenerateApiKey`.
- `ADMIN_GROUPS` and `mimetype_to_method` come from code that is not part of this model. They are the constant {"admin"} and a function parameter `suffixOf`.
- `TimestampOrderableMixin` from onebase_common, which `Action` inherits, is not part of this model. `Action` ordering uses the guarded operators of onebase_api/models/mixin.py. Timestamps are integers.
- History.ImportTime: `datetime.now()` at import is an unspecified constant.
- Reflection: directory scanning, module loading, `inspect.isclass` and `hasattr` are replaced by an explicit list of classes with a `NAMES` attribute. Inherited `NAMES` is resolved beforehand. The second loading of the module inside the loop is not modelled.
- TypeRegistry.ClassTreeOf: `inspect.getclasstree` is modelled for the depth the shipped classes need (class, bases, bases' bases). Its sorting of sibling entries is not modelled.
- TypeRegistry.RegistryKey: `NAMES[0]` is taken to be a string.
- TypeRegistry.RegistryKey: `str.upper()` is modelled on ASCII letters only. Python's is Unicode-aware and can change the length ('ß'.upper() is 'SS'). The shipped names are ASCII.
- Json.ToInt: Unicode decimal digits other than 0-9 are not accepted, and white space outside the Latin-1 range (U+2000 and the like) is not stripped. Python's `int()` accepts both. Within Latin-1 the white space it skips is exact: ASCII space, tab and line and page breaks, NEL and the no-break space, and not U+001C..U+001F.
- TimestampOrder.GuardedOperators: an object's classes are given as a set of names. The method resolution order and `__instancecheck__` hooks are not modelled.
- `Color.render_default` is not modelled: it depends on PIL and floating point, and does not run as written.
- Error text: the CSV loading and formatting of messages in exceptions.py is not modelled. An error is a constructor with its code and arguments.
- Regular expressions: `$` is modelled as end of string. Python also lets it match before a final newline. `\w` and `\d` are ASCII only, while Python's `str` patterns also accept other Unicode letters and digits. `re.I` folding covers ASCII and U+017F only.
- Json.Str: floats and containers carry their Python `str()` text instead of computing it. A float carries its truncated value when it is finite, or whether `json.loads` read it as infinity or NaN; floating-point arithmetic is not modelled.
- MainModels: the model covers the method bodies of onebase_api/models/main.py. That module cannot be imported as written. Lines 21-45 import from `odi_api`, and line 114 lists `DiscussionMixin` twice among the bases of `Key`, which Python refuses at class creation.
- models/main.py, a near copy of onebase_api/models/main.py with the same repeated base, is not modelled.
- MainModels.Children: the query is computed and dropped, so only the result (None) is modelled.

## Findings

| source | as written | input that shows it | evidently intended | confidence | as-written member | corrected member |
|---|---|---|---|---|---|---|
| onebase_api/models/mixin.py:198 | `set_writable` appends a READONLY action | a read-only document; `set_writable` by a user with 'set_writability' leaves `is_readonly` true | append WRITABLE, so the document becomes writable | high (not executed) | Historical.SetWritableCounterexample | Historical.Document.SetWritableIntended |
| onebase_api/models/mixin.py:231 | `hide` (and likewise `show` at line 242) appends a MODIFY action | a freshly created document; after `hide`, `is_hidden` is still false | append HIDE (SHOW), so the document becomes hidden (shown) | high (not executed) | Historical.HideCounterexample | Historical.Document.HideIntended |
| onebase_api/models/main.py:67 | `validate_value` raises when the validator answers 200 | status 200 raises; status 500 returns True | True on 200 and an exception otherwise, as the docstring says | high (not executed) | MainModels.ValidateValueCounterexample | MainModels.ValidateValueIntended |
| onebase_api/models/types/_base.py:50 | the fallback passes the mimetype as a second positional argument, which `render_default` of string.py:36 does not take | `render(slot)` with the default 'application/html' raises TypeError | `render` returns `str(slot.value)`, as the type tests expect | medium (not executed) | StringType.RenderCounterexample | StringType.RenderIntended |
| onebase_api/models/discussion.py:97-103 | each `self.parent` runs the query again, so the loop assigns into the replies of a fetched copy and `self.parent.save()` saves another, unchanged one | a comment with a parent, deleted: the parent still lists the comment's id and not the placeholder | relink the parent fetched once, so its replies point at the placeholder | high (not executed) | Discussion.DeleteAsWrittenKeepsDeletedReply | Discussion.DeleteRelinksParent |
| onebase_api/models/discussion.py:59 | `parent` queries only documents of the caller's own class | deleting a child's only parent: the child's `parent` is None, while test_discussion.py:112 expects a DeletedComment | search every comment kind, placeholders included | medium (not executed) | Discussion.DeletedParentIsPlaceholder | Discussion.OnlyPlaceholderHolds |
