# OVal core, modelled in Dafny

This project models four pieces of the OVal Java validation library and proves properties of them.

- **`DateRangeCheck`** (module `DateRange`): a constraint check holding textual `min`/`max` bounds, an optional `format` and a `tolerance`. A bound is unset, one of the tokens `now`, `today`, `tomorrow`, `yesterday`, or a literal date. The check resolves the bounds against the clock and parses literal ones once, caching them in `minMillis`/`maxMillis`. It turns a candidate (a `Date`, a `Calendar`, or any object's text) into an instant and tests `min <= v <= max`. The check is a class. Its invariant `Valid()` states cache coherence: a cached bound is the literal text parsed and moved by the current tolerance. Each setter is proved to clear exactly the caches it must.
- **`OValContextRenderer.render(List)`** (module `ContextRenderer`): joins the per-node renderings of a context path with `.`. No `.` goes before the first node or before a container-element node (iterable element, map key, map value). The loop is proved against the specification function `RenderPath`. Lemmas about `RenderPath` give the position of each node and the exact number of inserted dots.
- **`OValContext`** (module `Context`): the node datatype the renderer walks. Its only state is an optional compile-time type. It has the base accessors.
- **`XMLConfigurer`** (modules `XmlTree`, `AssertConverter`, `PatternConverter`, `XmlConfigurer`). The XML reader and writer are an abstract element tree: a name, attributes, ordered children and a text value. Over it the model covers:
  - the hand-written `assert` converter (marshal, and unmarshal with its cursor walk);
  - the `Pattern` converter;
  - the notification of check-initialisation listeners;
  - the listener registry;
  - the install/clear scoping of the thread-local listener slot around `fromXML`.

  The XML library's own parse is abstracted as the sequence of converter calls it makes, followed by its result or exception.

Shared pieces:
- `JavaNumbers`: Java `long` wrap-around, `Integer.toString`, `Integer.parseInt` and `String.trim().length() == 0`.
- `CheckTypes`: `ConstraintTarget` and its `name()`/`valueOf`.
- `Wrappers`: `Option`/`Result`.

Foreign pieces are parameters:
- The two date parsers (with a format, and the locale's default date-time parser) form a `Parsers` value the check is built with.
- The clock (`now`, and `dayStart(k)`, the instant at which the local day `k` days from today begins) is a `Clock` value passed to each evaluation.
- A context node's own `render(ctx)` and `toString()` are function parameters.
- What the reflection converter's `super.unmarshal` builds is an input to its hook.

Where the library's documented intent and its code differ, the model follows the code:
- An unset lower bound resolves to `0`, not to the smallest `long`. So with both bounds unset, dates before 1970 are rejected (`DateRange.UnboundedWindow`).
- `setFormat` does not clear the cached bounds. A cached literal bound keeps the value parsed with the format in force when it was cached. The ghost fields `minMillisFormat`/`maxMillisFormat` record that format, and `GetMinMillis`/`GetMaxMillis` state it.
- The message variables use `..` only for a `null` bound; an empty bound is passed through as the empty string.
- The base `getDeclaringClass()` returns `null`, not a sentinel.
- The renderer's test for suppressing the separator looks at the node itself (is it a container element?), not at its predecessor.

## Model

| member | source | states |
|---|---|---|
| DateRange.AppliesToDefault | src/main/java/net/sf/oval/constraint/DateRangeCheck.java:63-65 | the default targets are exactly one, `VALUES` |
| DateRange.MinTolerance | src/main/java/net/sf/oval/constraint/DateRangeCheck.java:136-188 | an unset lower bound is 0 whatever the tolerance; every set lower bound (symbolic or literal) is its tolerance-free value minus the tolerance, with `long` wrap-around; failing to parse does not depend on the tolerance |
| DateRange.MaxTolerance | src/main/java/net/sf/oval/constraint/DateRangeCheck.java:75-130 | an unset upper bound is `Long.MAX_VALUE` whatever the tolerance; every set upper bound is its tolerance-free value plus the tolerance, with wrap-around; failing to parse does not depend on the tolerance |
| DateRange.ToleranceWidensWindow | src/main/java/net/sf/oval/constraint/DateRangeCheck.java:75-188 | a value accepted with tolerance `t1` is accepted with any larger tolerance `t2`, provided no bound overflows |
| DateRange.UnboundedWindow | src/main/java/net/sf/oval/constraint/DateRangeCheck.java:77-78 | with both bounds `null` or both empty, a `Date` is accepted exactly when its instant is at or after the epoch |
| DateRange.TodayTomorrowWindow | src/main/java/net/sf/oval/constraint/DateRangeCheck.java:84-101 | with `min = today`, `max = tomorrow` and no tolerance, the current instant is accepted and an instant from the start of the day after tomorrow is rejected |
| DateRange.LiteralWindow | src/main/java/net/sf/oval/constraint/DateRangeCheck.java:112-128 | with literal bounds and an explicit format, text the format reads inside the bounds is accepted and text read after the upper bound is rejected |
| DateRange.UnparsableCandidateFails | src/main/java/net/sf/oval/constraint/DateRangeCheck.java:206-224 | text that neither parser accepts is not satisfied, with no error, whatever the bounds (none is consulted) |
| DateRange.FormatUseOnCandidatesAndBounds | src/main/java/net/sf/oval/constraint/DateRangeCheck.java:208-220 | bounds treat an empty format as absent, while candidates are tried even with an empty format; a candidate the format reads as instant -1 is re-read by the default parser |
| DateRange.NativeCandidates | src/main/java/net/sf/oval/constraint/DateRangeCheck.java:202-205 | a `Date` or `Calendar` is compared by its own instant, `lo <= t <= hi`, whatever the format |
| DateRange.DateRangeCheck.constructor | src/main/java/net/sf/oval/constraint/DateRangeCheck.java:36-42 | a new check has no bounds, no format, tolerance 0 and empty caches, and is coherent |
| DateRange.DateRangeCheck.GetMinMillis | src/main/java/net/sf/oval/constraint/DateRangeCheck.java:136-188 | returns the cached value, or else the resolved lower bound or `InvalidConfigurationException`; only a resolved literal bound is cached; coherence is kept |
| DateRange.DateRangeCheck.GetMaxMillis | src/main/java/net/sf/oval/constraint/DateRangeCheck.java:75-130 | returns the cached value, or else the resolved upper bound or the exception; only a resolved literal bound is cached; coherence is kept |
| DateRange.DateRangeCheck.ValueInMillis | src/main/java/net/sf/oval/constraint/DateRangeCheck.java:199-225 | the instant compared is `CandidateInstant`: a date or calendar gives its own; text is tried with the format, then with the default parser while the `-1` sentinel remains; `None` when neither parses |
| DateRange.DateRangeCheck.IsSatisfied | src/main/java/net/sf/oval/constraint/DateRangeCheck.java:195-228 | the verdict: `null` passes, unparsable text fails, otherwise `min <= v <= max`; the lower bound is looked up only for a parsed value and the upper bound only after the lower one held, and only those lookups touch the caches |
| DateRange.DateRangeCheck.CreateMessageVariables | src/main/java/net/sf/oval/constraint/DateRangeCheck.java:54-60 | the map is `MessageVariablesOf` the current bounds and format: exactly the keys `min`, `max`, `format`, with `..` for a `null` bound and the format passed through |
| DateRange.DateRangeCheck.GetMessageVariables | src/main/java/net/sf/oval/constraint/DateRangeCheck.java:54-60 | the lazily recreated variables always equal those of the current bounds and format |
| DateRange.DateRangeCheck.SetFormat | src/main/java/net/sf/oval/constraint/DateRangeCheck.java:230-233 | sets the format and marks the message variables stale; both cached bounds are kept, and coherence still holds |
| DateRange.DateRangeCheck.SetMax | src/main/java/net/sf/oval/constraint/DateRangeCheck.java:235-239 | sets `max`, clears only the cached upper bound, and marks the message variables stale |
| DateRange.DateRangeCheck.SetMin | src/main/java/net/sf/oval/constraint/DateRangeCheck.java:241-245 | sets `min`, clears only the cached lower bound, and marks the message variables stale |
| DateRange.DateRangeCheck.SetTolerance | src/main/java/net/sf/oval/constraint/DateRangeCheck.java:247-251 | sets the tolerance and clears both cached bounds; message-variable freshness is unchanged |
| DateRange.DateRangeCheck.Configure | src/main/java/net/sf/oval/constraint/DateRangeCheck.java:45-51 | the annotation's min, max, format and tolerance are installed; both caches are empty and the message variables are stale |
| JavaNumbers.WrapLong | src/main/java/net/sf/oval/constraint/DateRangeCheck.java:116 | the result is a `long`, equal to the input when it fits and congruent to it modulo 2^64 |
| JavaNumbers.IntegerToString | src/main/java/net/sf/oval/configuration/xml/XMLConfigurer.java:238 | at least one character; a leading `-` exactly for a negative value, followed by decimal digits only; a non-negative value is all digits |
| JavaNumbers.ParseInt | src/main/java/net/sf/oval/configuration/xml/XMLConfigurer.java:247 | a parsed text starts with a sign or a digit; a negative result needs a `-`; blank text never parses; a plain digit string inside the `int` range parses to the number it denotes |
| JavaNumbers.IsBlank | src/main/java/net/sf/oval/configuration/xml/XMLConfigurer.java:245 | the empty text is blank, and blank text holds no digit and no sign |
| JavaNumbers.ParseIntToString | src/main/java/net/sf/oval/configuration/xml/XMLConfigurer.java:135 | `Integer.parseInt(Integer.toString(n)) == n` for every `int` |
| JavaNumbers.IntegerToStringNotBlank | src/main/java/net/sf/oval/configuration/xml/XMLConfigurer.java:238 | the text `Integer.toString` writes is never blank |
| CheckTypes.ValueOfName | src/main/java/net/sf/oval/configuration/xml/XMLConfigurer.java:157 | `ConstraintTarget.valueOf(s)` yields `t` exactly when `s` is `t.name()` |
| Context.OValContext.CompileTimeType | src/main/java/net/sf/oval/context/OValContext.java:22-29 | the stored compile-time type, which may be absent |
| Context.OValContext.DeclaringClass | src/main/java/net/sf/oval/context/OValContext.java:36-38 | the base node has no declaring class |
| Context.OValContext.ToStringUnqualified | src/main/java/net/sf/oval/context/OValContext.java:43-45 | the base unqualified form is the node's `toString()` |
| ContextRenderer.Render | src/main/java/net/sf/oval/localization/context/OValContextRenderer.java:33-49 | the loop builds `RenderPath(path)`; an empty path gives the empty string and a one-node path gives exactly that node's rendering, with no separator |
| ContextRenderer.RenderSnoc | src/main/java/net/sf/oval/localization/context/OValContextRenderer.java:36-47 | appending a node appends exactly its separator and its rendering |
| ContextRenderer.RenderAt | src/main/java/net/sf/oval/localization/context/OValContextRenderer.java:36-47 | node `i` is rendered once at its place in order: the rendering of the nodes before it, then no `.` (first node or container element) or exactly one `.`, then its rendering, then the rest |
| ContextRenderer.RenderDotCount | src/main/java/net/sf/oval/localization/context/OValContextRenderer.java:35-47 | the output's dots are exactly one per non-first, non-container node plus those inside the node renderings |
| AssertConverter.Marshal | src/main/java/net/sf/oval/configuration/xml/XMLConfigurer.java:126-162 | the writer calls produce the element `AssertElement(c)` |
| AssertConverter.AttributePlacement | src/main/java/net/sf/oval/configuration/xml/XMLConfigurer.java:128-141 | `lang` and `severity` (decimal, read back as the same `int`) are always attributes; `message`, `errorCode` and `when` are attributes exactly when not at their default or `null`; `expr` and `target` never are; `expr` is the first child |
| AssertConverter.ReadTargets | src/main/java/net/sf/oval/configuration/xml/XMLConfigurer.java:182-191 | the walk over `appliesTo` yields `TargetsOf(items)`: the `constraintTarget` values in document order, or the first unknown one's error |
| AssertConverter.ReadProfiles | src/main/java/net/sf/oval/configuration/xml/XMLConfigurer.java:196-205 | the walk over `profiles` yields `ProfilesOf(items)`: the texts of the `string` elements in document order |
| AssertConverter.Unmarshal | src/main/java/net/sf/oval/configuration/xml/XMLConfigurer.java:165-209 | the cursor walk with its nested list walks computes `UnmarshalAssert(n)`: attributes first, then the children in order, stopping at the first exception |
| AssertConverter.ProfilesOfItems | src/main/java/net/sf/oval/configuration/xml/XMLConfigurer.java:142-151 | the written `string` list reads back as the same profiles in order |
| AssertConverter.TargetsOfItems | src/main/java/net/sf/oval/configuration/xml/XMLConfigurer.java:152-161 | the written `constraintTarget` list reads back as the same targets in order |
| AssertConverter.RoundTrip | src/main/java/net/sf/oval/configuration/xml/XMLConfigurer.java:126-209 | unmarshal after marshal restores lang, expr, when, severity, the reported message and error code, non-empty profiles and the non-empty applies-to targets in order; `target` comes back unset |
| AssertConverter.ApplyChildrenSplit | src/main/java/net/sf/oval/configuration/xml/XMLConfigurer.java:179-209 | walking `a + b` is walking `a`, then walking `b` from its result, unless `a` raised |
| AssertConverter.ChildrenSetOnlyChildFields | src/main/java/net/sf/oval/configuration/xml/XMLConfigurer.java:179-209 | the child walk changes nothing but `expr`, `profiles` and `appliesTo` |
| AssertConverter.ApplyChildrenKeepsExpr | src/main/java/net/sf/oval/configuration/xml/XMLConfigurer.java:193-195 | children not named `expr` leave `expr` as it was |
| AssertConverter.ExprChildOverridesAttribute | src/main/java/net/sf/oval/configuration/xml/XMLConfigurer.java:173-175 | the last `expr` child decides `expr`, whatever an `expr` attribute said |
| AssertConverter.SeverityOnlyFromAttribute | src/main/java/net/sf/oval/configuration/xml/XMLConfigurer.java:170-172 | `severity` is the parsed attribute when present and 0 otherwise |
| AssertConverter.UnknownChildIgnored | src/main/java/net/sf/oval/configuration/xml/XMLConfigurer.java:181-207 | inserting a child with any other name anywhere changes nothing |
| AssertConverter.TargetsOfFails | src/main/java/net/sf/oval/configuration/xml/XMLConfigurer.java:184-190 | reading `appliesTo` fails exactly when one of its `constraintTarget` elements names no target |
| PatternConverter.PatternAttributes | src/main/java/net/sf/oval/configuration/xml/XMLConfigurer.java:237-238 | exactly the attributes `pattern` (the text) and `flags` (a signed decimal) |
| PatternConverter.Marshal | src/main/java/net/sf/oval/configuration/xml/XMLConfigurer.java:235-239 | the element gains the two attributes; its name, children and text are kept |
| PatternConverter.UnmarshalPattern | src/main/java/net/sf/oval/configuration/xml/XMLConfigurer.java:242-248 | a result's text is the `pattern` attribute; missing or blank flags give flags 0, failing only on a missing pattern; other flags must parse as an `int` (else `NumberFormatException`, raised before the missing-pattern failure) and become the flags; once they parse, the result is `Ok` exactly when the `pattern` attribute is present, and otherwise the missing-pattern failure |
| PatternConverter.RoundTrip | src/main/java/net/sf/oval/configuration/xml/XMLConfigurer.java:235-248 | a written pattern reads back as the same (text, flags) pair, whatever else the element holds |
| XmlConfigurer.Broadcast | src/main/java/net/sf/oval/configuration/xml/XMLConfigurer.java:452-459 | without an installed set there are no calls; with one, one call per listener in registration order, each with the check |
| XmlConfigurer.OnCheckInitialized | src/main/java/net/sf/oval/configuration/xml/XMLConfigurer.java:452-459 | the loop makes exactly the `Broadcast` calls and leaves the slot installed as it was |
| XmlConfigurer.AssertConverterUnmarshal | src/main/java/net/sf/oval/configuration/xml/XMLConfigurer.java:165-213 | returns `UnmarshalAssert(n)`; the built check is announced after it is fully populated, and nothing is announced when unmarshalling raised |
| XmlConfigurer.ReflectionConverterUnmarshal | src/main/java/net/sf/oval/configuration/xml/XMLConfigurer.java:296-301 | returns what `super.unmarshal` built; only a `Check` is announced, and nothing is announced when it raised |
| XmlConfigurer.Convert | src/main/java/net/sf/oval/configuration/xml/XMLConfigurer.java:294-305 | handing an element to its converter yields `ConverterResult(call)` and announces exactly the check produced |
| XmlConfigurer.Parse | src/main/java/net/sf/oval/configuration/xml/XMLConfigurer.java:528 | the walk makes the converter calls in order up to the first exception; its produced checks and exception are `Replay(calls)`, and each produced check is announced to the installed set, in order |
| XmlConfigurer.ListenerSlot.constructor | src/main/java/net/sf/oval/configuration/xml/XMLConfigurer.java:287 | the thread-local starts with no set installed and no calls made |
| XmlConfigurer.XmlConfigurer.constructor | src/main/java/net/sf/oval/configuration/xml/XMLConfigurer.java:461-462 | a new configurer has no listeners and an empty configuration |
| XmlConfigurer.XmlConfigurer.AddCheckInitializationListener | src/main/java/net/sf/oval/configuration/xml/XMLConfigurer.java:520-523 | `null` raises `IllegalArgumentException` and changes nothing; otherwise the result says whether the listener was new, and only a new one is appended; the registry stays duplicate-free |
| XmlConfigurer.XmlConfigurer.RemoveCheckInitializationListener | src/main/java/net/sf/oval/configuration/xml/XMLConfigurer.java:579-581 | the result says whether the listener was registered, and afterwards it no longer is; `null` changes nothing |
| XmlConfigurer.XmlConfigurer.FromXml | src/main/java/net/sf/oval/configuration/xml/XMLConfigurer.java:525-559 | the listener set is installed during the parse and cleared afterwards even when the parse raised; every produced check is announced to the configurer's listeners, in order; the configuration is replaced only on success |
| XmlConfigurer.Without | src/main/java/net/sf/oval/configuration/xml/XMLConfigurer.java:579-581 | after removal the listener is absent and every other listener is present exactly when it was before |
| XmlConfigurer.DeliveriesSnoc | src/main/java/net/sf/oval/configuration/xml/XMLConfigurer.java:452-459 | one more produced check adds exactly its broadcast at the end |
| XmlConfigurer.ReplayStops | src/main/java/net/sf/oval/configuration/xml/XMLConfigurer.java:525-531 | once a converter has raised, later converter calls produce and announce nothing |
| XmlConfigurer.DeliveriesLength | src/main/java/net/sf/oval/configuration/xml/XMLConfigurer.java:452-459 | a parse makes one call per (check, listener) pair |
| XmlConfigurer.DeliveryAt | src/main/java/net/sf/oval/configuration/xml/XMLConfigurer.java:452-459 | call number `k * listeners + i` is listener `i` receiving check `k`: grouped by check in production order, listeners in registration order |
| XmlConfigurer.DeliveriesExactlyOnce | src/main/java/net/sf/oval/configuration/xml/XMLConfigurer.java:452-459 | with no duplicate listeners, each registered listener receives each check as often as it was produced, and unregistered ones receive nothing |
| XmlConfigurer.DeliveriesAppend | src/main/java/net/sf/oval/configuration/xml/XMLConfigurer.java:452-459 | calls for later checks follow those for earlier checks |
| XmlConfigurer.DeliveriesOnlyTo | src/main/java/net/sf/oval/configuration/xml/XMLConfigurer.java:452-459 | every call goes to an installed listener and carries a produced check |
| XmlConfigurer.BroadcastExactlyOnce | src/main/java/net/sf/oval/configuration/xml/XMLConfigurer.java:452-459 | with no duplicate listeners, one announcement calls each registered listener exactly once and no other |
| XmlConfigurer.AddThenRemove | src/main/java/net/sf/oval/configuration/xml/XMLConfigurer.java:520-523 | adding a new listener and then removing it restores the registry |
| XmlConfigurer.WithoutSplices | src/main/java/net/sf/oval/configuration/xml/XMLConfigurer.java:579-581 | removing a registered listener deletes its one position and keeps the others in registration order |
| XmlConfigurer.WithoutAt | src/main/java/net/sf/oval/configuration/xml/XMLConfigurer.java:579-581 | removing an element that occurs once deletes exactly that position |
| XmlConfigurer.WithoutKeepsDistinct | src/main/java/net/sf/oval/configuration/xml/XMLConfigurer.java:461 | removal keeps the registry duplicate-free and shrinks it by one exactly when the listener was registered |
| XmlConfigurer.WithoutAbsent | src/main/java/net/sf/oval/configuration/xml/XMLConfigurer.java:579-581 | removing an unregistered listener changes nothing |

## Left out

- Date and time library calls: `SimpleDateFormat`, `DateFormat.getDateTimeInstance()`, `Calendar` day arithmetic (including daylight-saving time) and `System.currentTimeMillis()`. They depend on locale and time zone, so they are the `Parsers` and `Clock` parameters. An invalid format pattern that makes `SimpleDateFormat` raise `IllegalArgumentException` is not modelled.
- `DateRange.DateRangeCheck.IsSatisfied`: one `Clock` value serves both bound lookups, while the code reads the system clock separately for each symbolic bound.
- `DateRange.DateRangeCheck.Configure`: the inherited `super.configure` is not modelled. That step copies message, error code, severity, profiles, target, `when` and applies-to from the annotation; `AbstractAnnotationCheck` is not part of this model.
- `DateRange.DateRangeCheck.GetMessageVariables`: the message-variable cache belongs to `AbstractCheck`, which is not part of this model. It is modelled from its use here: `requireMessageVariablesRecreation()` clears a flag, and a stale cache is recreated on lookup.
- Logging (`LOG.debug`) and the collection factory used for the message-variable map.
- `AssertConverter.Marshal`: requires `lang` and `expr` to be set. Writing a `null` attribute or text is up to the XML library, which is not modelled.
- `AbstractCheck` is not part of this model. The `assert` converter model assumes that `getMessage()`/`getErrorCode()` report `net.sf.oval.constraint.Assert.violated`/`net.sf.oval.constraint.Assert` while unset, that `getAppliesTo()` reports `CONTAINER` while unset, and that setters store their argument.
- `JavaNumbers.ParseInt`: accepts ASCII digits only; `Integer.parseInt` also accepts other Unicode decimal digits.
- `PatternConverter.UnmarshalPattern`: `Pattern.compile` is treated as always succeeding on a present pattern. Its rejection of unknown flag bits and of malformed expressions belongs to the regular-expression engine, which is not modelled.
- `createXStream`'s alias, field and attribute wiring, `ListConverter`, the converters' `canConvert` tests and the XML library itself: foreign-library configuration. The library's parse is the abstract `XStreamRun`: the converter calls it makes, then its result or exception.
- `XStreamReflectionProvider`: reflection over annotation defaults.
- `XmlConfigurer.XmlConfigurer.FromXml`: the four input overloads (file, stream, reader, string) are one method, because they differ only in I/O. A listener that changes the registry while being notified is not modelled. The thread-local is a single sequential slot, shared by all configurers. A listener that itself calls `fromXML` (a nested parse) is not modelled either: a delivery is an entry in a log, not a call into listener code. In the code, the nested call installs its own listener set in place of the outer one, and its `finally` block then removes the thread-local value, so for the rest of the outer parse `onCheckInitialized` finds no listener set, and the outer configurer's listeners are not told about the checks produced after that point.
- `toXML` (I/O and `synchronized`), the `XMLConfigurer` constructors that take an input (each is the plain constructor followed by `fromXML`), and the plain accessors `getPojoConfigurer`, `setPojoConfigurer`, `getXStream`, `getClassConfiguration` and `getConstraintSetConfiguration`.
- Listener identity: a listener is a value. `LinkedHashSet` membership is modelled as equality of these values.
