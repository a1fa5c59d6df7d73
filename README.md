# utterlyidle reverse routing, next scheduled time and message updates, in Dafny

This project models three parts of the utterlyidle web framework and proves
properties of those models.

* **`BaseUriRedirector`** (modules `Redirection`, `Bindings`, `Codec`,
  `UriTemplate`, with `Scenarios` for the cases of `BaseUriRedirectorTest`). It does
  reverse routing: given a recorded call to a resource method with its
  arguments, it finds the method's binding in a `RegisteredResources`
  registry. It fills the binding's URI template with the path arguments,
  encodes the query arguments in declaration order, and places the result
  below the application's base URI. `absoluteUriOf` returns that URI, path
  only (`/base/relative`, `/base/path?...`), without the base scheme and host.
  `seeOther` returns a `303 See Other` response whose `Location` header is
  the full URL.
  * Arguments are a closed set of shapes: null, a scalar (text or an
    integer), an `Option`, an `Either`, an `Iterable` and a
    `QueryParameters` bag.
  * Each shape has its own encoding rule. A default applies only to a null
    argument. An empty option emits nothing. An either emits the text of its
    populated side. An iterable or a bag emits repeated names in order.
  * Errors are values: an unregistered method, an argument count that does
    not match, a missing path value, or an argument whose shape does not fit
    its parameter.
  * The registry is a class whose `Add` updates a map in place. A later
    binding for a method replaces an earlier one.
* **`NextTime.nextTime("HHMM", clock)`** (module `Schedules`). It returns the
  next moment, at or after the clock's current time, at the given time of
  day.
  * Time is whole minutes since a midnight epoch, and the clock's reading is
    a parameter.
  * The rule: today's occurrence if it is not yet past (a time equal to now
    counts as today), otherwise tomorrow's.
* **`HttpMessage`** (module `HttpMessage`). It is an immutable message of
  headers and an entity.
  * `headers(v)` and `entity(v)` rebuild the message through `create`,
    keeping the other field.
  * The `Builder` functions `header(name, value)`, `header(builders...)`,
    `header(pairs)` and `entity(value)` are message-to-message functions.
  * `replace(name, value)` drops every header with that name and then
    appends the new pair.

`Decimal` writes and reads decimal numbers; an integer argument such as `100`
renders as `"100"`. `Strings` and the query-string functions in `Codec` split
and join text at a separator, so a written query string can be proved to
read back as its entries.

## Model

| member | source | states |
|---|---|---|
| HttpMessage.Message.WithHeaders | src/com/googlecode/utterlyidle/HttpMessage.java:13-15 | the new message has exactly the given headers and the original entity |
| HttpMessage.Message.WithEntity | src/com/googlecode/utterlyidle/HttpMessage.java:19-21 | the new message has exactly the given entity and the original headers |
| HttpMessage.WithHeadersOverwrites | src/com/googlecode/utterlyidle/HttpMessage.java:13-15 | setting the headers twice is the same as setting them once to the second value |
| HttpMessage.WithEntityOverwrites | src/com/googlecode/utterlyidle/HttpMessage.java:19-21 | setting the entity twice is the same as setting it once to the second value |
| HttpMessage.WithOwnFieldsIsIdentity | src/com/googlecode/utterlyidle/HttpMessage.java:13-21 | writing back a message's own headers or entity gives the same message |
| HttpMessage.UpdatesCommute | src/com/googlecode/utterlyidle/HttpMessage.java:13-23 | a header update and an entity update commute, and together they equal `create(headers, entity)` |
| HttpMessage.Modify | src/com/googlecode/utterlyidle/HttpMessage.java:32 | `modify` with no builders returns the value unchanged, and with one builder is a call of that builder |
| HttpMessage.ModifyAppend | src/com/googlecode/utterlyidle/HttpMessage.java:32 | `modify` applies builders left to right: applying `a + b` is applying `a` and then `b` |
| HttpMessage.HeaderPairs | src/com/googlecode/utterlyidle/HttpMessage.java:35-37 | `header(pairs)` makes the headers exactly the given pairs and keeps the entity, for every message |
| HttpMessage.EntityOf | src/com/googlecode/utterlyidle/HttpMessage.java:39-41 | `entity(value)` sets the entity to the wrapped value and keeps the headers, for every message |
| HttpMessage.HeaderBuildersLaw | src/com/googlecode/utterlyidle/HttpMessage.java:30-33 | `header(builders...)` writes the builders' result on the current headers back as the headers; the entity is unchanged |
| HttpMessage.HeaderNamedLaw | src/com/googlecode/utterlyidle/HttpMessage.java:26-28 | `header(name, value)` keeps the entity and makes the headers `replace(name, value)` of the current ones |
| HttpMessage.Header | test/com/googlecode/utterlyidle/BaseUriRedirectorTest.java:115 | a header lookup is empty exactly when no pair has the name; a value it finds belongs to a pair with that name |
| HttpMessage.HeaderIsFirst | test/com/googlecode/utterlyidle/BaseUriRedirectorTest.java:115 | a value found by header lookup is that of the first pair with the name |
| HttpMessage.RemoveDropsName | src/com/googlecode/utterlyidle/HttpMessage.java:26-28 | after `remove`, no header has the removed name and there are no more headers than before |
| HttpMessage.RemoveKeepsOthers | src/com/googlecode/utterlyidle/HttpMessage.java:26-28 | `remove` keeps the values of every other name, in their order |
| HttpMessage.Replace | src/com/googlecode/utterlyidle/HttpMessage.java:26-28 | after `replace(name, value)`, `name` reads back as `value` and is the only `name` header; every other name keeps its lookup and its values in order |
| Schedules.ParseTime | test/com/googlecode/utterlyidle/schedules/NextTimeTest.java:15-21 | a string that reads as a time is four digits and gives a time on the clock (hours below 24, minutes below 60) |
| Schedules.ParseFormat | test/com/googlecode/utterlyidle/schedules/NextTimeTest.java:15-21 | reading the HHMM form of any valid time gives back that time |
| Schedules.FormatParse | test/com/googlecode/utterlyidle/schedules/NextTimeTest.java:15-21 | a string that reads as a time is exactly that time's HHMM form, so hours come from the first two digits and minutes from the last two |
| Schedules.NextTime | test/com/googlecode/utterlyidle/schedules/NextTimeTest.java:15-21 | there is a next time exactly when the string reads as a time |
| Schedules.NextTimeBounds | test/com/googlecode/utterlyidle/schedules/NextTimeTest.java:14-22 | the next time is never before now, is less than a day after it, and falls at the requested time of day |
| Schedules.NextTimeEarliest | test/com/googlecode/utterlyidle/schedules/NextTimeTest.java:14-22 | no moment at the requested time of day lies between now and the next time: it is the earliest one |
| Schedules.NextTimeSameDay | test/com/googlecode/utterlyidle/schedules/NextTimeTest.java:14-22 | the next time is on today's date exactly when its time of day is not earlier than now's, and on the next date otherwise |
| Schedules.LaterToday | test/com/googlecode/utterlyidle/schedules/NextTimeTest.java:15 | "1300" at noon of any day is 13:00 the same day |
| Schedules.NowIsToday | test/com/googlecode/utterlyidle/schedules/NextTimeTest.java:16 | "1200" at noon of any day is noon the same day |
| Schedules.EarlierTomorrow | test/com/googlecode/utterlyidle/schedules/NextTimeTest.java:20-22 | "1100" at noon of any day is 11:00 the next day |
| Bindings.Register | test/com/googlecode/utterlyidle/BaseUriRedirectorTest.java:122-126 | the binding added last is the one registered for its method; adding nothing leaves the registry as it was |
| Bindings.Lookup | test/com/googlecode/utterlyidle/BaseUriRedirectorTest.java:119 | a lookup finds a binding exactly when the method is registered, and that binding is the registered one; `Resolve` finds a call's binding through it |
| Bindings.RegisterKeys | test/com/googlecode/utterlyidle/BaseUriRedirectorTest.java:122-126 | after adding bindings, a method is registered exactly when it was already registered or one of the added bindings is for it |
| Bindings.RegisterLastWins | test/com/googlecode/utterlyidle/BaseUriRedirectorTest.java:122-126 | a method's entry is the last binding added for it |
| Bindings.RegisterKeepsOthers | test/com/googlecode/utterlyidle/BaseUriRedirectorTest.java:122-126 | adding bindings for other methods leaves a method's entry unchanged |
| Bindings.PathNamesArePathParams | test/com/googlecode/utterlyidle/BaseUriRedirectorTest.java:48 | the path names of a parameter list are exactly the names of its path parameters |
| Bindings.RegisteredResources.constructor | test/com/googlecode/utterlyidle/BaseUriRedirectorTest.java:123 | a new registry is empty |
| Bindings.RegisteredResources.Add | test/com/googlecode/utterlyidle/BaseUriRedirectorTest.java:124 | adding bindings in place leaves the registry's map equal to the previous map with each binding registered in turn |
| Bindings.NewBindings | test/com/googlecode/utterlyidle/BaseUriRedirectorTest.java:122-126 | `bindings(values...)` gives a fresh registry holding exactly the given bindings, registered in order |
| Codec.QueryValues | test/com/googlecode/utterlyidle/BaseUriRedirectorTest.java:54-93 | a `@QueryParam` argument encodes unless it is a query-parameter bag, and every entry it emits is under the parameter's name; a scalar emits one entry holding its text, and an either emits one entry holding the text of its populated side |
| Codec.PathValue | test/com/googlecode/utterlyidle/BaseUriRedirectorTest.java:47-51 | a path argument has a substitution exactly when it is a scalar, and that substitution is the scalar's text; a null one is a missing-path-value error |
| Codec.BagValues | test/com/googlecode/utterlyidle/BaseUriRedirectorTest.java:102-110 | a `QueryParameters` argument encodes exactly when it is null or a bag, and a bag gives its own pairs |
| Codec.EncodeOne | test/com/googlecode/utterlyidle/BaseUriRedirectorTest.java:47-58 | a path parameter contributes one substitution under its name and no query entry; a query parameter contributes no substitution and only entries under its name |
| Codec.EncodeOk | test/com/googlecode/utterlyidle/BaseUriRedirectorTest.java:47-58 | `Encode`: a call's arguments encode exactly when each argument encodes against its own parameter |
| Codec.EncodeFirstError | test/com/googlecode/utterlyidle/BaseUriRedirectorTest.java:47-58 | a failed encoding reports the error of the first argument that fails, and every earlier argument encodes |
| Codec.EncodeSingle | test/com/googlecode/utterlyidle/BaseUriRedirectorTest.java:47-58 | a one-parameter call encodes to its single argument's contribution |
| Codec.EncodeVars | test/com/googlecode/utterlyidle/BaseUriRedirectorTest.java:47-51 | the path substitutions are keyed by exactly the path parameters' names |
| Codec.EncodeVarValue | test/com/googlecode/utterlyidle/BaseUriRedirectorTest.java:47-51 | a path parameter's substitution is the text of the scalar argument in its position, when no earlier path parameter has its name |
| Codec.EncodeAppend | test/com/googlecode/utterlyidle/BaseUriRedirectorTest.java:103-110 | query entries follow declaration order: the entries of a concatenated parameter list are the first part's entries followed by the second's |
| Codec.RepeatedEntries | test/com/googlecode/utterlyidle/BaseUriRedirectorTest.java:61-64 | an iterable emits one `name` entry per element, in the same order, each with that element's text |
| Codec.OptionalPresence | test/com/googlecode/utterlyidle/BaseUriRedirectorTest.java:82-86 | an empty option emits no entry whatever the default; a present one emits one entry with its value |
| Codec.EitherIsLossy | test/com/googlecode/utterlyidle/BaseUriRedirectorTest.java:89-93 | a left and a right with the same text encode identically: nothing marks the side |
| Codec.NullUsesDefault | test/com/googlecode/utterlyidle/BaseUriRedirectorTest.java:75-79 | a null scalar emits its default when one is declared and nothing otherwise |
| Codec.DefaultNotSuppressed | test/com/googlecode/utterlyidle/BaseUriRedirectorTest.java:75-79 | a value equal to its default is still emitted |
| Codec.BagPassesThrough | test/com/googlecode/utterlyidle/BaseUriRedirectorTest.java:103-110 | a query-parameter bag contributes exactly its own pairs, repeats and order kept |
| Codec.MissingPathIsError | test/com/googlecode/utterlyidle/BaseUriRedirectorTest.java:47-51 | a null path argument is a missing-path-value error, never an empty substitution |
| Codec.QueryString | test/com/googlecode/utterlyidle/BaseUriRedirectorTest.java:82-84 | the query string is empty exactly when there are no entries |
| Codec.QueryStringOne | test/com/googlecode/utterlyidle/BaseUriRedirectorTest.java:57 | one entry is written `name=value` |
| Codec.QueryStringCons | test/com/googlecode/utterlyidle/BaseUriRedirectorTest.java:63 | entries are written in order, separated by `&` |
| Codec.ParseQueryString | test/com/googlecode/utterlyidle/BaseUriRedirectorTest.java:103-110 | a query string of entries without separators in them reads back as the same entries, repeats and order kept |
| Decimal.ParseNatToString | test/com/googlecode/utterlyidle/BaseUriRedirectorTest.java:92 | reading back the decimal form of a number gives the number |
| Decimal.NatToStringNoLeadingZero | test/com/googlecode/utterlyidle/BaseUriRedirectorTest.java:92 | a decimal form starts with `0` only for zero |
| Decimal.NatToStringInjective | test/com/googlecode/utterlyidle/BaseUriRedirectorTest.java:92 | different numbers have different decimal forms |
| Decimal.IntToString | test/com/googlecode/utterlyidle/BaseUriRedirectorTest.java:92 | a non-negative integer is written as digits only; a negative one as `-` followed by digits |
| UriTemplate.NamesArePlaceholders | test/com/googlecode/utterlyidle/BaseUriRedirectorTest.java:48 | the names of a template are exactly its placeholders |
| UriTemplate.ShowParse | test/com/googlecode/utterlyidle/BaseUriRedirectorTest.java:41-48 | `Parse`: writing a parsed template back gives the original text |
| UriTemplate.ParseLiteral | test/com/googlecode/utterlyidle/BaseUriRedirectorTest.java:41 | a template without `{` is one literal segment |
| UriTemplate.ParsePlaceholder | test/com/googlecode/utterlyidle/BaseUriRedirectorTest.java:48 | literal text, a `{name}` and more text parse as the literal's segments, one placeholder and the rest's segments |
| UriTemplate.Expand | test/com/googlecode/utterlyidle/BaseUriRedirectorTest.java:47-51 | a failed expansion names a placeholder of the template that has no value |
| UriTemplate.ExpandFails | test/com/googlecode/utterlyidle/BaseUriRedirectorTest.java:47-51 | expansion fails exactly when some placeholder has no value |
| UriTemplate.ExpandNoPlaceholders | test/com/googlecode/utterlyidle/BaseUriRedirectorTest.java:40-44 | a template without placeholders expands to its own text |
| UriTemplate.ExpandLitVar | test/com/googlecode/utterlyidle/BaseUriRedirectorTest.java:47-51 | a literal followed by one placeholder expands to the literal followed by the value |
| UriTemplate.ExpandAppend | test/com/googlecode/utterlyidle/BaseUriRedirectorTest.java:47-51 | expanding a concatenated template gives the concatenated expansions |
| Redirection.BaseUriRedirector.AbsoluteUriOf | test/com/googlecode/utterlyidle/BaseUriRedirectorTest.java:34-37 | a relative URI is placed below the base path, keeps its query, and stays relative with no host; an absolute URI comes back unchanged (a choice: no case shows an absolute URI) |
| Redirection.BaseUriRedirector.Resolve | test/com/googlecode/utterlyidle/BaseUriRedirectorTest.java:40-110 | an unregistered method and a wrong argument count are errors; a resolved URI is always relative with no host |
| Redirection.BaseUriRedirector.Url | test/com/googlecode/utterlyidle/BaseUriRedirectorTest.java:29-31 | a relative URI's full URL is the base scheme, `://`, the base host, then its path and query; an absolute URI is its own text (a choice: no case shows one) |
| Redirection.BaseUriRedirector.AbsoluteUriOfCall | test/com/googlecode/utterlyidle/BaseUriRedirectorTest.java:61-64 | `absoluteUriOf(call)` succeeds exactly when the call resolves, and is then the resolved URI placed below the base path |
| Redirection.BaseUriRedirector.SeeOther | test/com/googlecode/utterlyidle/BaseUriRedirectorTest.java:29-32 | a redirect has status 303 See Other and an empty entity |
| Redirection.BaseUriRedirector.SeeOtherCall | test/com/googlecode/utterlyidle/BaseUriRedirectorTest.java:40-44 | `seeOther(call)` succeeds exactly when the call resolves, and is then the redirect to the resolved URI |
| Redirection.NewRedirector | test/com/googlecode/utterlyidle/BaseUriRedirectorTest.java:118-120 | `redirector(values...)` builds its registry in place and equals `Redirector(base, values)`, in which the last binding added for each method is the one used |
| Redirection.SeeOtherLocation | test/com/googlecode/utterlyidle/BaseUriRedirectorTest.java:113-116 | a redirect's headers are one `Location` header holding the target's full URL |
| Redirection.SeeOtherRelative | test/com/googlecode/utterlyidle/BaseUriRedirectorTest.java:29-31 | a redirect to a relative URI sends the base scheme and host, the base path, then the relative path and query |
| Redirection.SeeOtherAbsolute | test/com/googlecode/utterlyidle/BaseUriRedirectorTest.java:29-31 | a redirect to an absolute URI sends it as it is (a choice: no case redirects to an absolute URI) |
| Redirection.JoinPathLeadingSlash | test/com/googlecode/utterlyidle/BaseUriRedirectorTest.java:41-43 | a leading `/` on a relative path does not change where it lands below the base path (extended from the templates `/redirect`, which land at `/base/redirect`, to every relative path) |
| Redirection.QuestionMarkIffQuery | test/com/googlecode/utterlyidle/BaseUriRedirectorTest.java:84 | a URI's text contains `?` exactly when it has a query |
| Redirection.ResolveLiteralTemplate | test/com/googlecode/utterlyidle/BaseUriRedirectorTest.java:40-44 | a binding without placeholders resolves to its template path followed by the encoded query |
| Redirection.WellFormedResolves | test/com/googlecode/utterlyidle/BaseUriRedirectorTest.java:47-58 | for a binding whose placeholders and path parameters match, an encodable call always resolves: its path is the template with each placeholder replaced by the text of the argument at that path parameter's position, and its query is the encoded query arguments |
| Redirection.ResolveReportsEncodeError | test/com/googlecode/utterlyidle/BaseUriRedirectorTest.java:47-58 | an argument that cannot be encoded fails resolution, `seeOther` and `absoluteUriOf` with that error |
| Redirection.ResolveOnePathParam | test/com/googlecode/utterlyidle/BaseUriRedirectorTest.java:47-51 | a `text{name}` template with one path argument resolves to the text followed by the argument, with no query |
| Redirection.SeeOtherCallLocation | test/com/googlecode/utterlyidle/BaseUriRedirectorTest.java:42-43 | the redirect for a resolved call carries the base scheme, host and path followed by the call's path and query |
| Scenarios.RelativeUri | test/com/googlecode/utterlyidle/BaseUriRedirectorTest.java:29-37 | `seeOther(relative)` sends Location `http://server/base/relative`, and `absoluteUriOf(relative)` is `/base/relative` |
| Scenarios.BindingWithoutParameters | test/com/googlecode/utterlyidle/BaseUriRedirectorTest.java:40-44 | `GET /redirect` with no parameters redirects to `http://server/base/redirect` |
| Scenarios.PathParameter | test/com/googlecode/utterlyidle/BaseUriRedirectorTest.java:47-51 | `/redirect/{foo}` with `"bar"` redirects to `http://server/base/redirect/bar` |
| Scenarios.QueryParameter | test/com/googlecode/utterlyidle/BaseUriRedirectorTest.java:54-58 | query parameter `foo` with `"bar"` redirects to `http://server/base/redirect?foo=bar` |
| Scenarios.IterableParameter | test/com/googlecode/utterlyidle/BaseUriRedirectorTest.java:61-64 | an iterable `id` of `1234, 5678` gives `/base/path?id=1234&id=5678` |
| Scenarios.DefaultValue | test/com/googlecode/utterlyidle/BaseUriRedirectorTest.java:75-79 | a null `foo` with default `Dan` redirects to `http://server/base/redirect?foo=Dan` |
| Scenarios.OptionNone | test/com/googlecode/utterlyidle/BaseUriRedirectorTest.java:84 | an empty option redirects to `http://server/base/redirect`, with no query |
| Scenarios.OptionSome | test/com/googlecode/utterlyidle/BaseUriRedirectorTest.java:85 | `some("baz")` redirects to `http://server/base/redirect?optional=baz` |
| Scenarios.EitherLeft | test/com/googlecode/utterlyidle/BaseUriRedirectorTest.java:91 | `left("left")` redirects to `http://server/base/redirect?either=left` |
| Scenarios.EitherRight | test/com/googlecode/utterlyidle/BaseUriRedirectorTest.java:92 | `right(100)` redirects to `http://server/base/redirect?either=100` |
| Scenarios.StreamingWriterPath | test/com/googlecode/utterlyidle/BaseUriRedirectorTest.java:95-100 | with both `SomeResource` bindings registered, `getStreamingWriter("foo")` redirects to `http://server/base/path/foo` |
| Scenarios.MultipleParametersWithTheSameName | test/com/googlecode/utterlyidle/BaseUriRedirectorTest.java:102-110 | a bag holding `name=name1` and `name=name2` redirects to `http://server/base/path/?name=name1&name=name2` |

## Left out

- The reflective call recorder (`Call.on` and `Call.method`) and its misuse error are not modelled. A recorded call is an explicit method name with its argument list.
- Annotation scanning (`annotatedClass`) is not modelled. Its result is written out as `Binding` values.
- The HTTP method of a binding is kept but never used, because reverse routing does not depend on it.
- `SomeResource` is not modelled. Its two bindings are written out as `/path/{id}` with a path parameter and `/path/` with a `QueryParameters` parameter, which yield the asserted URLs.
- Percent-encoding is the identity, and URIs are built from parts rather than parsed. The totallylazy `Uri` class is not part of this model, and none of the asserted values need escaping.
- A base URI's host and port are one authority string.
- Only text and `int` scalars are modelled. There is no registry of formatters by runtime type, so the unsupported-type error arises only from an argument shape that does not fit its parameter, such as a bag for a path parameter.
- `Builder.entity(Object)` and `Builder.header(String, Object)` take any object; the model takes strings, so the conversion of other objects to text is not captured.
- Header names match exactly. `HeaderParameters` is not part of this model, and any case-insensitive matching it does is not captured.
- Header builders are arbitrary functions on header lists. `Parameters.Builder.replace` is modelled as "remove every pair with the name, then append one".
- `BaseUriRedirector` receives the registry's map at construction. Bindings added to the registry afterwards are therefore not seen, whereas the Java object holds a live reference.
- Repeating a resolution gives the same URI because `Resolve` is a function. The model states no separate lemma for this.
- `NextTime` measures time in whole minutes from a midnight epoch. Calendar dates, months, years, time zones, seconds and milliseconds of the clock, and `StoppedClock` are not modelled; the clock's reading is a parameter.
- `NextTime.java` is not part of this model. The model reads anything other than four digits forming a valid 24-hour time as no time (`None`). The asserted cases only exercise well-formed input.
- The HTTP server (`RestServer`) and the servlet adapter (`ApplicationServlet`) are not modelled. They hold sockets, thread pools and container glue, with no logic of the core.

Choices the model makes where `BaseUriRedirectorTest` does not decide:

- An absolute URI given to `seeOther` or `absoluteUriOf` is used as it is (`Redirection.SeeOtherAbsolute`, `Redirection.BaseUriRedirector.AbsoluteUriOf`). No case shows an absolute URI.
- A relative path with a leading `/` lands below the base path, not at the server root (`Redirection.JoinPathLeadingSlash`). The cases show this only for binding templates such as `/redirect`.
- A query value equal to its declared default is still emitted (`Codec.DefaultNotSuppressed`). The cases only show the default standing in for a null argument; nothing decides whether an equal value is suppressed.
