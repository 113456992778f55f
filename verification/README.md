# biditext, modelled in Dafny

biditext is a WeeChat script that makes right-to-left text readable in a
left-to-right terminal. It hooks the `weechat_print` modifier. For every
line that is about to be printed, the callback `biditext_cb`:

- reorders the line with fribidi's `log2vis(line, LTR)`;
- unpacks the modifier data `plugin;buffer;tags`;
- looks the buffer up with `buffer_search`;
- prints the line twice with `prnt_date_tags` at date 0;
- returns `""`, so that WeeChat does not print the original line itself.

The first printed line is the text as received, tagged
`tags,no_show_non_bidied`. The second is the reordered text, tagged with
`filter_log1_to_log9(tags)` followed by `,no_log`.

The model has four modules:

- `Strings` (strings.dfy): Python's `str.split` and `str.join` for one
  separator character, with their round-trip laws.
- `Fribidi` (fribidi.dfy): the base directions and the type of `log2vis`.
  The bidirectional algorithm itself is not modelled: the callback receives
  `log2vis` as an arbitrary function.
- `Weechat` (weechat.dfy): a `Host` object. Its `buffer_search` is a fixed
  function chosen when the host is built, a simplification of WeeChat, whose
  answer follows the buffers open at the time. `BufferSearch` appends each query
  to `lookups`, and `PrntDateTags` appends each printed line to `emitted`.
- `Biditext` (biditext.dfy): the tag filter and the callback.

## How the tag filter really behaves

`filter_log1_to_log9` (biditext.py:31-44) builds its "set" of log tags as a
generator expression (biditext.py:37). That generator is built once per
call, and every `tag not in log1_to_log9` test (biditext.py:42) draws values
from it:

- when the test finds the tag, the generator stops just past the matching
  value;
- when the test misses, the generator is exhausted.

The model keeps that state:

- `LogTagGenerator` is a class whose field `next` is the index of the
  value yielded next (10 means exhausted).
- Its `Contains` method is the `in` test. It draws values in a loop, as
  Python does.
- `Probe` gives the same result in closed form.
- `Kept` threads the generator's position through the tag list.

`KeptDropsLongestLogRun` proves what the filter therefore does: it drops
exactly the longest leading run of `logN` tags whose digits strictly
increase, and it keeps everything from the first break in that run onward.

- `"log3,notify_message"` becomes `"notify_message"`.
- `"notify_message,log3"` is unchanged.
- `"log5,log3"` becomes `"log3"`. Filtering that again gives `""`, so the
  filter is not idempotent.

The generator covers `range(10)`, so `log0` is a log tag too, although the
function's name and its docstring (biditext.py:31-33) speak of `log1` to
`log9`.

The callback's docstring (biditext.py:49-53) pairs `no_log` with the line
as received and `no_show_non_bidied` with the reordered line. The code
(biditext.py:62-66) does the opposite, and the model follows the code.

The script has no recovery path:

- a failing `log2vis` is not caught;
- a buffer that is not found is not detected: the pointer comes back
  unchecked and is used for both lines;
- modifier data that does not split into exactly three fields raises
  `ValueError` before anything is printed.

The model has the last two behaviours; a failing `log2vis` is left out
(see below). Two further facts follow from the code:

- biditext.py:42 drops only the leading run of log tags with increasing
  levels; a log tag after any other tag is kept.
- biditext.py:62-66 tags the line as received with `no_show_non_bidied` and
  the reordered line with `no_log`.

The first printed line keeps every incoming tag. So when the incoming tags
already contain `no_log`, that line carries both suppression tags: tags
`no_log` give the first line the tags `no_log,no_show_non_bidied`.

## Model

| member | source | states |
|---|---|---|
| `Strings.Split` | biditext.py:38 | `str.split` yields exactly one more piece than there are separators, and no piece contains the separator |
| `Strings.Join` | biditext.py:39-43 | `sep.join` of n >= 1 pieces is exactly n - 1 characters longer than the pieces together; its round trips with `split` are `JoinSplit` and `SplitJoin` |
| `Strings.JoinSplit` | biditext.py:38-43 | joining the pieces of a split with the same separator gives back the original string |
| `Strings.SplitJoin` | biditext.py:38-43 | splitting a join of separator-free pieces (at least one) gives back the pieces |
| `Strings.SplitAppendToken` | biditext.py:62-63 | appending `,token` to a tags string appends exactly that token to its split |
| `Biditext.LogLevel` | biditext.py:37 | a tag gets a level exactly when it equals `'log' + str(i)` for some `i` in `range(10)`, and the level is that `i` |
| `Biditext.Probe` | biditext.py:37-42 | the `in` test on the partly consumed generator: a hit means the tag is the value just before the new position (which lies after the old one); a miss means no value still to come equals the tag, and the generator is exhausted |
| `Biditext.LogTagGenerator.constructor` | biditext.py:37 | a fresh generator starts at `log0` |
| `Biditext.LogTagGenerator.Contains` | biditext.py:42 | drawing values until one equals the tag or none is left gives the result and the new generator position that `Probe` describes |
| `Biditext.Kept` | biditext.py:39-43 | the tags the loop keeps are never more than the tags given, and once the generator is exhausted every tag is kept; `KeptIsSuffix` and `KeptDropsLongestLogRun` say which ones |
| `Biditext.KeptIsSuffix` | biditext.py:37-43 | the kept tags are a tail of the tag list: the loop only ever drops tags from the front |
| `Biditext.KeptDropsLongestLogRun` | biditext.py:37-43 | the kept tags are exactly the suffix after the longest leading run of log tags with strictly increasing levels, all at least the starting position |
| `Biditext.KeptKeepsOtherTags` | biditext.py:37-43 | a tag other than `log0`..`log9` is never dropped and keeps its position relative to the end of the list |
| `Biditext.FilteredTags` | biditext.py:31-44 | the filtered tags string is never longer than its argument; `FilterIsSuffix`, `FilterDropsLongestLogRun` and `FilterLog1ToLog9` say what it is |
| `Biditext.FilterLog1ToLog9` | biditext.py:31-44 | the loop with the shared generator returns the comma-join of the tags after the longest leading increasing log run |
| `Biditext.FilterDropsLongestLogRun` | biditext.py:37-44 | the filter's result is the comma-join of the tags after the longest leading run of log tags with strictly increasing levels |
| `Biditext.FilterIsSuffix` | biditext.py:38-44 | the filter's result is a suffix of its argument (`tags.endswith(result)`) |
| `Biditext.SplitFilteredTags` | biditext.py:38-44 | splitting the filter's result at commas gives back exactly the kept tags, or one empty tag when none is kept |
| `Biditext.FilterIsIdentityIff` | biditext.py:38-44 | the filter returns its argument unchanged exactly when the first tag is not a log tag; `""` therefore maps to `""` |
| `Biditext.FilterDropsLeadingLogTag` | biditext.py:37-43 | `"log3,notify_message"` becomes `"notify_message"` |
| `Biditext.FilterKeepsLaterLogTag` | biditext.py:37-43 | `"notify_message,log3"` is unchanged, because the miss on the first tag exhausted the generator |
| `Biditext.FilterStopsAtLowerLevel` | biditext.py:37-43 | `"log5,log3"` becomes `"log3"`, and filtering again gives `""`, so the filter is not idempotent |
| `Biditext.FilterDropsLogZero` | biditext.py:37-43 | `log0` is dropped like any other log tag, and `"log0,log7,log2"` becomes `"log2"` |
| `Biditext.BiditextCb` | biditext.py:47-68 | three fields: one lookup of (plugin, buffer), then exactly two lines printed in order to that buffer at date 0 (the line as received under `tags,no_show_non_bidied`, then `log2vis(line, LTR)` under the filtered tags and `,no_log`), and `""` is returned; any other field count: `ValueError` is raised, with no lookup and nothing printed |
| `Biditext.Emissions` | biditext.py:62-66 | for every incoming tags string the callback prints exactly two lines, and their tags strings always differ, because the first one's last tag is `no_show_non_bidied` and the second one's is `no_log` |
| `Biditext.FirstEmissionKeepsAllTags` | biditext.py:62-65 | the first printed line carries every incoming tag, log tags included, followed by `no_show_non_bidied` |
| `Biditext.FirstEmissionMayCarryBothSuppressionTags` | biditext.py:62-65 | when the incoming tags contain `no_log`, the first line carries both `no_log` and `no_show_non_bidied` |
| `Biditext.NoLogTagsEmissions` | biditext.py:62-65 | with incoming tags `no_log`, the first line's tags are exactly `no_log,no_show_non_bidied` |
| `Biditext.SecondEmissionKeepsFilteredTags` | biditext.py:63-66 | the second printed line carries the tags the filter kept (one empty tag when it kept none), followed by `no_log` |
| `Biditext.EmptyTagsEmissions` | biditext.py:62-63 | with empty tags, the two tag strings are `,no_show_non_bidied` and `,no_log` |
| `Biditext.EmptyTagsFiltered` | biditext.py:38-44 | the filter maps the empty tags string to itself |
| `Biditext.LogTagEmissions` | biditext.py:63 | with tags `log3,notify_message`, the second line is tagged `notify_message,no_log` |
| `Weechat.Host.BufferSearch` | biditext.py:60 | a lookup returns the host's answer for (plugin, buffer), records the query and prints nothing |
| `Weechat.Host.PrntDateTags` | biditext.py:65-66 | printing appends exactly one (buffer, date, tags, message) record to the emission log |

## Left out

- `log2vis` (biditext.py:22, 57) is fribidi's implementation of the Unicode Bidirectional Algorithm (Unicode Standard Annex #9), a C library. It is a parameter of the callback; nothing is assumed or proved about how it reorders.
- A failing `log2vis` is not modelled: the script does not catch it, so it would escape the callback. The model treats `log2vis` as total. Because it is pure, calling it before the unpacking leaves nothing to observe when the unpacking fails.
- `Weechat.Host.BufferSearch`: `buffer_search` (biditext.py:60) is an arbitrary function of the names, fixed while the host lives. In WeeChat its answer depends on which buffers are open, which can change between callbacks; each callback makes one lookup, so within a callback the difference cannot be observed.
- What WeeChat does with a printed line is not visible to the script: logging, display, and the tags `no_log`, `no_show_non_bidied` and `logN`.
- Script registration, the metadata constants and the hook installation (biditext.py:24-28, 71-86) are plugin lifecycle boilerplate.
- The callback's `data` and `modifier` arguments are accepted but unused, as in the script.
- Strings are sequences of characters. Python's Unicode and encoding details are not modelled.
