# logxx in Dafny

A model of the core of logxx, a small header-only C++ logging library
(`logxx.hpp`). Its central type is `basic_logger`, which combines a format
policy, a filter policy and an output channel. The `logger` type used in
practice is `basic_logger<std_format, std_filter>`. This model covers:

- **Severity** (`severity.dfy`): the `severity` enumeration, from `fatal` = 0
  to `trace` = 5, with each enumerator's integer value. `LevelOf` describes
  which integers name an enumerator; logxx itself only converts enumerators to
  `int`, never back.
- **Format** (`format.dfy`): the envelope `<timestamp> [<pid>] <<severity>>: `
  that `std_format` writes in front of each visible message. The severity is
  streamed as an `int`, so its decimal text is modelled too. A parser reads the
  severity back out of any envelope.
- **Channels** (`channels.dfy`): `basic_channel`, modelled by the text it has
  received so far. `delivered` holds what was written up to the last `flush()`,
  `pending` holds what was written since then, and a counter records the
  flushes. Whether the underlying stream really buffers is not modelled. The `std::ostream&`
  returned by the write path is modelled by `Sink`: either the channel's own
  stream or the process-wide null stream.
- **Policies** (`policies.dfy`): `std_format::format` and `std_filter::filter`.
  A severity is visible exactly when `severity <= threshold`.
- **Logging** (`logging.dfy`): `basic_logger` as a class with a threshold (the
  filter's `severity_`) and an optional channel. In C++ the registry is the
  static map `channels_`; here it is an explicit `Registry` object holding a
  `map<string, Logger>`.
- **Macros** (`macros.dfy`): `LOG`, `LOG_`, `LOG_IF` and `LOG_IF_`. Each checks
  `severity() >= level` before `get` is called and before the payload is
  evaluated.
- **Scenarios** (`scenarios.dfy`): client code that is proved using only the
  contracts above.

Three consequences of how `logxx.hpp` is written are modelled as it stands:

- **A new logger copies nothing from the root logger.** `log(name)` creates a
  logger with `new self_t` (logxx.hpp:73), so it gets the constructor's
  threshold `debug` and no channel (logxx.hpp:66-68), whatever the root logger
  `""` is set to. `Registry.Log` does the same, and
  `Scenarios.NoRootInheritance` shows it.
- **A filtered `get` can still allocate a channel.** `get` and `operator()`
  pass `channel()` as an argument to the filter (logxx.hpp:84, 88). That
  argument is evaluated first, so a logger with no channel gets a console
  channel even when the severity is then filtered out. Nothing is written to
  that channel. Only the guard in the `LOG*` macros (logxx.hpp:142-146) stops
  the allocation, because it skips `get` altogether.
  `Scenarios.FilteredWrites` shows both cases.
- **A false `LOG_IF*` condition skips the registry.** The condition is tested
  with `&&` before `log(sink)` is called (logxx.hpp:145-146). So when it is
  false, `LOG_IF` and `LOG_IF_` do not even look the logger up.

## Model

| member | source | states |
|---|---|---|
| `Severity.Level.Value` | logxx.hpp:50-57 | every enumerator's integer value lies between 0 (`fatal`) and 5 (`trace`) |
| `Severity.LevelOf` | logxx.hpp:50-57 | an integer names an enumerator exactly when it lies in 0..5, and that enumerator's value is the integer |
| `Severity.LevelOfValue` | logxx.hpp:50-57 | converting an enumerator to its integer and back gives the same enumerator |
| `Severity.ValueInjective` | logxx.hpp:50-57 | two enumerators have the same integer value only if they are the same enumerator |
| `Severity.LevelsAscending` | logxx.hpp:50-57 | `fatal` is 0 and each later enumerator is exactly one more than the one before |
| `Severity.LevelsTotallyOrdered` | logxx.hpp:50-57 | any two levels are equal or strictly ordered by value |
| `Format.NatToString` | logxx.hpp:120 | the decimal text of a severity is a non-empty run of digits without leading zeros, and it is "0" only for 0 |
| `Format.IntToString` | logxx.hpp:120 | an `int` is written as digits, with a leading minus sign exactly when it is negative |
| `Format.ParseNatToString` | logxx.hpp:120 | reading the decimal text of a natural number gives the number back |
| `Format.ParseIntToString` | logxx.hpp:120 | reading the text that streaming an `int` produces gives the `int` back |
| `Format.EnvelopeShape` | logxx.hpp:116-122 | the envelope starts with the timestamp, then ` [`, and ends with `: ` |
| `Format.EnvelopeSeverityRoundTrip` | logxx.hpp:116-122 | whatever the timestamp and pid text, the severity between the last `<` and `>: ` can be read back from the envelope exactly |
| `Channels.Channel.Write` | logxx.hpp:20 | writing to the stream adds the text to the buffered text and leaves the flushed text and the flush count alone |
| `Channels.Channel.Flush` | logxx.hpp:21 | a flush pushes out all buffered text, loses nothing and counts one flush |
| `Channels.Append` | logxx.hpp:129-133 | text streamed into the channel's stream is appended to the channel; text streamed into the null stream is dropped |
| `Policies.VisibleMonotone` | logxx.hpp:130 | if a severity is visible at a threshold, every more urgent severity is visible there too |
| `Policies.VisibleGrowsWithThreshold` | logxx.hpp:130 | raising the threshold never hides a severity that was visible |
| `Policies.VisibleAtLevels` | logxx.hpp:130 | `fatal` is visible at every level; `trace` is visible only at `trace` |
| `Policies.StdFormat` | logxx.hpp:116-122 | the envelope is written to the channel and the channel's stream is returned |
| `Policies.StdFilter` | logxx.hpp:128-133 | the channel's stream is returned iff `severity <= threshold`; only then is the envelope written, and otherwise the channel is left exactly as it was |
| `Logging.Logger.constructor` | logxx.hpp:66-68 | a new logger has the given threshold (default `debug`) and no channel |
| `Logging.Logger.SetFilter` | logxx.hpp:95-96 | after `filter(s)`, the getter `severity()` (modelled by `Logging.Logger.Severity`) returns `s`; the channel is untouched |
| `Logging.Logger.SetChannel` | logxx.hpp:79 | the channel being replaced, if there is one, is flushed with nothing lost; afterwards the logger's channel is the given one and its threshold is unchanged |
| `Logging.Logger.GetChannel` | logxx.hpp:80 | an existing channel is returned unchanged; otherwise a fresh, empty console channel is created, adopted and returned |
| `Logging.Logger.Get` | logxx.hpp:82-89 | the channel is resolved first, creating the console channel if none exists; the channel's stream is returned iff the severity is visible; the channel then holds exactly its previous text plus the envelope when visible, and nothing more otherwise |
| `Logging.Logger.Dispose` | logxx.hpp:91-93 | the channel, if any, is flushed with nothing lost |
| `Logging.Registry.constructor` | logxx.hpp:105-108 | the registry starts empty |
| `Logging.Registry.Log` | logxx.hpp:70-77 | a registered name returns its existing logger and leaves the map unchanged; an unregistered name adds exactly one fresh logger with threshold `debug` and no channel, leaving other entries alone; distinct names never share a logger |
| `Macros.GuardIsFilter` | logxx.hpp:142-146 | the macros' guard `severity() >= level` admits exactly the levels the filter makes visible |
| `Macros.Emit` | logxx.hpp:142-146 | for an admitted level, `get(level) << payload` appends the envelope and then the payload to the logger's channel without flushing it, creating a console channel if it is missing |
| `Macros.LogIfTo` | logxx.hpp:146 | `LOG_IF_`: with a false condition the registry is untouched; otherwise the sink is registered. The payload is evaluated iff the condition holds and the guard admits the level, and then the envelope and payload, and nothing else, reach the sink's channel. When it is not evaluated, the sink's channel is not even created. The sink's channel is never flushed, and when the payload is not evaluated it is left exactly as it was. A channel the write creates is a console channel. No other logger's threshold or channel changes, and the sink's channel is the only channel that may be written |
| `Macros.LogTo` | logxx.hpp:143 | `LOG_`: the same for a named sink, with no condition |
| `Macros.LogIf` | logxx.hpp:145 | `LOG_IF`: the same on the root logger `""` |
| `Macros.Log` | logxx.hpp:142 | `LOG`: the same on the root logger `""`, with no condition |
| `Scenarios.LookupTwice` | logxx.hpp:70-77 | two lookups of one name return the same instance, and the registry gains only that name |
| `Scenarios.NetScenario` | logxx.hpp:128-133 | with logger "net" at threshold `warning`, an `error` write puts its envelope and payload on the channel, and a `trace` write adds nothing |
| `Scenarios.OtherChannelsUntouched` | logxx.hpp:143-146 | a `LOG_` write to "net" and a `LOG_IF_` with a false condition leave the separate channel of logger "db" exactly as it was |
| `Scenarios.SkippedWritesKeepChannel` | logxx.hpp:143-146 | a false `LOG_IF_` and a guarded-out `LOG_` leave the sink's channel with its unflushed text and flush count unchanged |
| `Scenarios.CreatedChannelIsConsole` | logxx.hpp:80 | an admitted `LOG` on an empty registry creates a console channel holding the envelope and payload unflushed, and replacing that channel flushes it once |
| `Scenarios.NoRootInheritance` | logxx.hpp:73 | a logger created after the root logger was given threshold `trace` and a channel still has threshold `debug` and no channel |
| `Scenarios.ReplaceChannel` | logxx.hpp:79 | replacing a channel that holds buffered output flushes all of it before the new channel is adopted |
| `Scenarios.FilteredWrites` | logxx.hpp:82-89 | a direct `get` at a filtered severity creates an empty console channel, while `LOG` at that severity creates none |

## Left out

- Concrete channel I/O (`console_channel` on standard error, `file_channel` on an append-mode file, `null_channel` and `nullstream`, logxx.hpp:24-48) is left out. A channel is modelled only by the text it receives and its flushes. `ChannelKind` records only whether a channel stands for the console or a file channel; it has no kind for `null_channel` or the rotating file channel.
- channels/rotfile_channel.hpp is not part of this model. Its only logic is an operating-system check that the file still exists, followed by a reopen.
- The timestamp (`second_clock::universal_time()`) and `getpid()` are calls into code outside the model. They are passed in as opaque text.
- Thread safety of the static registry and of channel replacement is left out. The code has no synchronisation, and the model is sequential.
- `shared_ptr` lifetimes are left out, and so is the deletion of a replaced channel. This includes `channel(c)` called with the channel already installed, which in C++ deletes that channel while still pointing to it.
- The template and virtual-dispatch plumbing (`basic_format`, the policy parameters) is left out. Only the default `std_format`/`std_filter`/`console_channel` composition is modelled.
- Root-logger inheritance, a hex dump and multi-sink fan-out do not exist in this revision of `logxx.hpp`, so they are not modelled.
- IntToString and Envelope assume the stream's default formatting (decimal, no `showpos`, no `showbase`). The payload is streamed into the same `std::ostream` as the envelope (logxx.hpp:84, 117-121), and format flags it sets stay in force for later envelopes. For example, after `<< std::showpos` the next envelope reads `<+4>`, and after `<< std::hex` a `get(12)` envelope reads `<c>`. That leftover stream format state is not modelled.
- Severities and thresholds are unbounded integers. The C++ `int` never overflows here, because the code only compares and prints severities.
