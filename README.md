# gohdoc package resolution, in Dafny

gohdoc opens the documentation page of a Go package in a browser. It finds or
starts a local `godoc -http` server, loads the server's package list (the
`/pkg` page), and works out which package page the command-line argument
means. That resolution logic is modelled here:

- `Search` (search.dfy): `getPkgMatches`, which ranks the server's package
  names against a search term. The exact hit comes first, then the suffix,
  prefix and contains buckets, each sorted. Also the `TrimSuffix(v, "/")`
  that normalises scraped links.
- `Misc` (misc.dfy): `absPkgURL`, `determinePackage` (strips `GOPATH/src`
  and one more character from a directory), and `printPkgsWithLink` (the
  width loop and the padded lines).
- `Open` (open.dfy): the argument switch of `cmdOpen`, the slash check and
  the retry loop of `serverPkgPageOK`, the truncation of
  `printPossibleMatches`, and the whole decision procedure of `cmdOpen`. That
  procedure tries the GOPATH route, then the exact match, then the walk over
  `matches[1:]`.
- `Server` (server.dfy): the `listServerProcesses` filter over a process
  table, the `errCount` loop and switch of `cmdKillAll`, and
  `processMeta.String` with its `UNKNOWN_USER` default.
- `Text` (text.dfy): the parts of Go's standard library these need.
  - `strings.HasPrefix`, `HasSuffix`, `Contains` and `Join`.
  - Go's bytewise string order. For valid UTF-8 this is the code-point order
    used here.
  - `sort.Strings`, modelled as an insertion sort. `SortedUnique` shows that
    every correct sort gives the same result.
  - `%d` formatting, with its inverse.
  - `len` in UTF-8 bytes, and `%-Ns` padding, which counts runes.
- `Wrappers` (wrappers.dfy): `Option` and `Result`.

The package-level globals `gopath`, `port` and the working directory are
parameters. Go's `filepath.Clean`, `filepath.Join` and `filepath.IsAbs` are
uninterpreted functions, the fields of `Open.PathOps`. `path.Join(gopath,
"src")` goes through the same `join`. `path.IsAbs` is concrete: it is a prefix
test for "/".

The godoc server is an oracle `head`. It maps a page URL to the answers that
successive HEAD requests of that URL receive within the retry window. `cmdOpen`
is modelled as `Open.CmdOpen`, which returns four things:
- how it ends: the URL handed to `openBrowser`, an error, or a Go runtime
  panic;
- every `serverPkgPageOK` call it made (the package path, and whether it
  retried);
- whether it searched the package list;
- which matches `printPossibleMatches` listed.

The method is proved equal to the function `Open.OpenSpec`, and the
properties are proved about that function.

Points where what the code does may be surprising:

- `determinePackage` uses a plain string prefix test. The character after
  `GOPATH/src` is skipped unchecked, so `/go/src2/x` gives the package `/x`.
  An empty or relative GOPATH is not rejected.
- `getPkgMatches` keeps duplicate non-exact entries. Only copies of the term
  itself collapse into the single exact head.
- Without an exact match, `cmdOpen` tries only `matches[1:]`. The best-ranked
  match is never tried: "byt" against `bytes`, `encoding/json` and `gohdoc`
  matches only `bytes`, so the search fails. On an empty match list the slice
  expression panics.
- The GOPATH route is one `determinePackage` call on the cleaned, absolute
  argument.
- The case at search_test.go:59 expects `determinePackage` to drop a trailing
  slash. The slice at misc.go:30 keeps it, and
  `Misc.DeterminePackageKeepsTrailingSlash` shows that it does.

## Model

| member | source | states |
|---|---|---|
| Search.Classify | search.go:102-118 | the bucket is exact iff the name equals the term; suffix iff it otherwise ends with it; prefix iff it otherwise starts with it; contains iff it otherwise contains it (the first matching rule wins) |
| Search.BucketedSnoc | search.go:107-118 | appending a name to the list appends it to its own bucket and to no other |
| Search.BucketedCount | search.go:101-119 | a bucket holds each name of its kind exactly as often as the input does, and no other name |
| Search.BucketsPartitionCandidates | search.go:101-119 | the three buckets together hold each candidate (a name that is not the term and contains it) as often as the input does |
| Search.GetPkgMatches | search.go:93-135 | the loop with three buckets, the sorts and the concatenation give exactly the `PkgMatches` result |
| Search.EmptyInputsNoMatches | search.go:94-96 | an empty term or an empty list gives no matches and no exact hit |
| Search.ExactIffPresent | search.go:101-105 | the exact flag holds iff the term is non-empty and some entry equals it |
| Search.TailEntriesAreCandidates | search.go:107-131 | every entry after the exact head differs from the term and contains it |
| Search.MatchesMultiset | search.go:101-131 | each name occurs in the output once if it is the term and present, plus once per candidate occurrence in the input; duplicates are kept |
| Search.ExactHitFirstAndOnce | search.go:125-128 | with an exact hit the output is non-empty, starts with the term, and holds it exactly once however often the input does |
| Search.BucketLengths | search.go:101-119 | the three bucket lengths add up to the number of candidate entries |
| Search.MatchesLength | search.go:101-131 | the output length is one for the exact hit plus the number of candidate entries |
| Search.MatchesLayout | search.go:121-131 | the output is the exact head, then the sorted suffix, prefix and contains buckets; each region is sorted and satisfies its own rule and none of the earlier ones |
| Search.BucketRegion | search.go:121-123 | sorting a bucket keeps every element in that bucket |
| Search.MatchesIgnoreListOrder | search.go:121-131 | the result depends only on the multiset of names in the list, not on their order |
| Search.SameBucketSorted | search.go:121-123 | lists with the same names give the same sorted bucket |
| Search.TrimSlash | search.go:153 | the link is unchanged or loses one trailing slash; it is unchanged iff it does not end in a slash |
| Search.TrimSlashRemovesOne | search.go:153 | at most one character goes, and a link ending in two slashes still ends in one |
| Search.ExamplePrefixMatch | search.go:93-135 | bytes, encoding/json and gohdoc against "byt" give (["bytes"], false) |
| Search.ExampleExactMatch | search.go:125-128 | ["fmt"] against "fmt" gives (["fmt"], true) |
| Text.JoinLength | open.go:44-45 | the joined string is as long as the parts together plus one separator between each two |
| Text.JoinSnoc | open.go:44-45 | joining one more part appends the separator and that part |
| Text.JoinOccurrence | open.go:44-45 | each part occurs in the joined string at some index |
| Text.JoinContainsParts | open.go:44-45 | the joined string contains every part |
| Text.LessTransitive | search.go:121-123 | the string order that sort.Strings uses is transitive |
| Text.LessTotal | search.go:121-123 | any two distinct strings are ordered one way or the other |
| Text.Insert | search.go:121-123 | inserting into a sorted list keeps it sorted and adds exactly that element |
| Text.SortStrings | search.go:121-123 | the result is sorted and a permutation of the input |
| Text.SortedUnique | search.go:121-123 | two sorted permutations of the same names are equal, so every correct sort gives the same buckets |
| Text.DecimalRoundTrip | misc.go:16 | the `%d` rendering of an integer reads back as that integer |
| Text.ByteLen | misc.go:57 | the UTF-8 length lies between the number of code points and four times that |
| Text.AsciiByteLen | misc.go:57 | for ASCII names the byte length is the number of characters |
| Text.PadRight | misc.go:61-64 | `%-Ns`: the length is the larger of the string's and the width, the string comes first, then only spaces |
| Misc.AbsPkgURLRoundTrip | misc.go:15-17 | the package path can be read back from the URL built for it |
| Misc.AbsPkgURLPort | misc.go:16 | the port can be read back from the URL built for it |
| Misc.ExampleAbsPkgURL | misc.go:14 | "sync/atomic" on port 6060 gives "http://localhost:6060/pkg/sync/atomic/" |
| Misc.DeterminePackage | misc.go:21-35 | every failure carries the "not a valid package on GOPATH" message |
| Misc.DeterminePackageFails | misc.go:24-33 | failure iff the path lacks `GOPATH/src` as a string prefix or is at most one character longer than it |
| Misc.DeterminePackageSplits | misc.go:26-30 | on success the path is the prefix, one character and the non-empty package |
| Misc.DeterminePackageOfSplit | misc.go:30-34 | the prefix, any one character and a non-empty package give back that package |
| Misc.DeterminePackageSeparatorUnchecked | misc.go:26-30 | "/go/src2/x" under GOPATH "/go" gives "/x": the character after the prefix is not checked to be a slash |
| Misc.DeterminePackageTestCase | search_test.go:60 | "/go/src/github.com/neilotoole/gohdoc" under "/go" gives "github.com/neilotoole/gohdoc" |
| Misc.DeterminePackageKeepsTrailingSlash | search_test.go:59 | with a trailing slash the slash stays in the package, unlike the expectation at that line |
| Misc.MaxPkgLen | misc.go:55-60 | the width bounds every name's byte length and is 0 or the length of some name |
| Misc.PrintPkgsWithLink | misc.go:54-66 | the width is the maximum byte length, and there is one line per name, in order, each the padded name, four spaces and its URL |
| Misc.LinkLines | misc.go:63-65 | one line per name, in order, each the `LinkLine` of that name at the given width |
| Misc.LinkLineColumns | misc.go:61-64 | a line starts with the name, has spaces up to column width+4, then the URL and a newline |
| Open.ChooseArg | open.go:28-46 | no argument gives the working directory with no original argument; one gives it (with "." meaning the working directory) and records it; two or more are an error naming the count and the arguments |
| Open.TooManyArgsCount | open.go:44-45 | the count in the error reads back as the number of arguments |
| Open.TooManyArgsListsArgs | open.go:44-45 | the count error contains every argument it received |
| Open.ServerPkgPageOK | open.go:135-166 | never ok together with an error, and the result is `PageCheck` of the answers received |
| Open.SlashedPathRefused | open.go:137-139 | a path with a leading or trailing slash is refused with the invalid-path error whatever the server would answer |
| Open.NoRetryOneAttempt | open.go:143-157 | without retry only the first answer matters |
| Open.PollFound | open.go:148-159 | polling finds the page iff some request got 200; it fails iff none did and the last request had a transport error |
| Open.PageCheckMeaning | open.go:143-165 | for a well-formed path: found iff a request made got 200; an error iff none did and the last one failed in transport |
| Open.PrintPossibleMatches | open.go:118-129 | the header names the count, and the "showing first 10" form is used iff there are more than ten; the first min(10, n) matches are printed as `printPkgsWithLink` lines |
| Open.WalkMatches | open.go:102-111 | the loop over the candidates gives exactly `WalkCandidates` |
| Open.WalkMeaning | open.go:102-111 | the walk probes a prefix of the candidates in order without retry; all but the last found nothing; a hit is the last one probed and was found; an abort carries its error; otherwise every candidate was tried |
| Open.WalkProbes | open.go:102-111 | the probes are the first candidates, in order and without retry; an exhausted walk probed them all |
| Open.WalkVerdict | open.go:103-110 | every probe but the last found nothing; a hit is the package of the last probe, which found it; an abort carries the last probe's error |
| Open.CmdOpen | open.go:19-116 | the outcome, the probes, the search flag and the listed matches are exactly `OpenSpec` |
| Open.Resolve | open.go:58-115 | from the tentative path on, the run is exactly `ResolveSpec` |
| Open.TryGopath | open.go:58-79 | the package found under GOPATH is `determinePackage` of the cleaned, absolute argument, and its check is the retrying page check of that package (not found when there is none) |
| Open.SearchPkg | open.go:86-111 | the search of the package list is exactly `NameRoute` |
| Open.TryMatches | open.go:87-111 | what is done with the matches is exactly `MatchRoute` |
| Open.CheckErrNotNotFound | open.go:103-115 | an error from a page check never equals the "failed to find" error |
| Open.TooManyArgsRefused | open.go:31-46 | two or more arguments end the run with the count error, with no probe and no search |
| Open.GopathRouteFirst | open.go:66-75 | a GOPATH package whose page exists is opened after one retrying probe, without a search |
| Open.GopathErrorAborts | open.go:69-72 | an error from the GOPATH page check is returned at once, without a search |
| Open.SearchOnlyForRelativeArg | open.go:81 | a search happens only for one explicit argument that is not absolute; with an absolute working directory, neither no argument nor "." is searched |
| Open.ExactMatchAlone | open.go:86-99 | with an exact match only the term is probed, with retry; it is opened iff found; if missing the run fails with "should have been able to open this" |
| Open.NonExactSkipsFirst | open.go:102-111 | otherwise only matches[1:] are probed, in order, without retry, and matches[0] never; an opened page is the first found and then up to ten matches are listed; "failed to find" means every other candidate was tried and none found |
| Open.SingleMatchNotTried | open.go:102-111 | a single non-exact match is never tried and the run fails with "failed to find" |
| Open.ExamplePartialNameFails | open.go:102-115 | "byt" against bytes, encoding/json and gohdoc fails without probing anything |
| Open.NoMatchPanics | open.go:102 | an empty match list panics at `matches[1:]` |
| Open.EmptyListPanics | open.go:102 | an empty package list makes every search panic |
| Open.RelativeArgEmptyListPanics | open.go:81-102 | a relative argument off GOPATH, with an empty package list, ends cmdOpen in that panic |
| Open.MatchRouteOpenedOnlyIfFound | open.go:86-111 | the search opens only the page of its last probe, which found it |
| Open.ResolveOpenedOnlyIfFound | open.go:66-111 | resolution opens only the page of its last probe, which found it |
| Open.OpenedOnlyIfFound | open.go:66-111 | cmdOpen opens only a page the server confirmed: the URL is that of the last probe, and that probe found it |
| Server.ProcessMeta.DisplayUser | server.go:86-89 | an empty username shows as "UNKNOWN_USER", a non-empty one unchanged, so the user column is never empty |
| Server.ProcessMeta.String | server.go:85-92 | the line starts with the user column |
| Server.StringColumns | server.go:91 | when user and pid fit, the line has the user, spaces to column 18, the pid (which reads back), spaces to column 26, then the space-joined command line |
| Server.FindHttpFlag | server.go:119-129 | true iff some argument starts with -http |
| Server.ListServerProcesses | server.go:94-133 | the result is exactly `ListSpec`: a listing error is wrapped, otherwise the scan of the table |
| Server.ScanStopsAtError | server.go:103-115 | once a lookup fails, the rest of the table does not change the result |
| Server.ScanMeaning | server.go:102-131 | the listing succeeds iff every name, and every godoc process's command line, can be read; it then holds exactly the godoc http servers, in table order |
| Server.ScanFirstError | server.go:103-115 | a failed listing reports the error of the first process that could not be read, with no partial result |
| Server.ServersMembership | server.go:108-128 | an entry is listed iff it is a process named godoc* with an argument starting with -http |
| Server.ServersAtMostOneEach | server.go:119-128 | each process gives at most one entry, however many of its arguments match |
| Server.KillFailures | server.go:48-59 | the number of failed kills is at most the number of servers |
| Server.CmdKillAll | server.go:37-72 | a listing error is returned with nothing printed; otherwise the error is the summary of the failed-kill count, killed servers go to standard output and failures to standard error |
| Server.KillOutputsPartition | server.go:50-59 | every server is printed on exactly one of the two outputs, and the failures on standard error are errCount |
| Server.KillSummaryMeaning | server.go:61-71 | no error iff every kill succeeded; "failed to kill 1 process" iff there was one server and it failed |
| Server.KillSummaryCounts | server.go:69-70 | the two counts in the plural message read back as errCount and the number of servers |

## Left out

- main.go: flag parsing, the GOPATH lookup, signal handling and the exit
  dispatch are environment input and concurrency.
- kill.go: an older copy of `cmdKillAll`. Its filter is the one modelled from
  server.go, and the rest is operating-system side effects.
- scrape.go, and in search.go the goquery selector of `scrapePkgPage`: these
  are HTML traversal through foreign libraries. Only the `TrimSuffix` applied
  to each link is modelled.
- `cmdList`, `cmdSearch` and `cmdServers` only print, and are not modelled.
- `ensureServer`, `startServer` and `loadServerPkgList` contact or start the
  server. They are represented by `cmdOpen`'s `server` parameter: the package
  list, or the error they return.
- `openBrowser` and open_darwin.go, open_linux.go and open_windows.go launch
  processes. `Opened(url)` is the URL handed to `openBrowser`. Its own error
  is not modelled.
- `determinePackageOnGopath`, called at open.go:66, is not part of this model.
  misc.go's `determinePackage` stands in for it.
- `cleanFilePath` and `processCmdOpenArgs`, named in open_test.go, are not part
  of this model.
- `filepath.Clean`, `filepath.Join` and `filepath.IsAbs` are uninterpreted
  functions, not Go's path-cleaning algorithm.
- `Open.ServerPkgPageOK`: the 500 ms window and the 100 ms sleeps are wall
  clock time. The requests made in the window are the attempt sequence the
  oracle gives for the URL. A URL probed twice gets the same answers both
  times.
- log output, and the `%v` rendering of errors (errors are their message
  strings).
- gopsutil: the process table and each process's lookups and kill result are
  fields of `Server.Proc`. A failed `Username()` is the empty string, as the
  code ignores that error. The 32-bit width of pids is not modelled.
- `Misc.DeterminePackage`: the slice after `GOPATH/src` drops one character,
  where misc.go:30 drops one byte. The two agree when that character is
  ASCII. When it takes several UTF-8 bytes, Go returns a package that starts
  with the rest of its bytes, which is not a valid string. The model's
  strings are sequences of code points and cannot hold such a result, so it
  drops the whole character, and the length test counts characters too.
- `Misc.DeterminePackageFails`: "at most one character longer than the
  prefix" is Go's one-byte test only when the character after the prefix is
  ASCII. A non-ASCII character there is outside the model.
- `Misc.DeterminePackageSplits`: the split into prefix, one character and
  package is Go's split into prefix, one byte and package only for an ASCII
  separator. A non-ASCII character there is outside the model.
- `Misc.DeterminePackageOfSplit`: "any one character `c`" holds of
  misc.go:30 only for a one-byte `c`. A non-ASCII `c` is outside the model.
- `Text.ByteLen`: it treats every character as a valid code point, and does
  not model how invalid UTF-8 would be measured.
