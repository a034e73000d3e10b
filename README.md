# wish: a verified model of the shell's command pipeline

This project models the core of `wish`, the small teaching shell in
`processes_multiple.c`. `main` reads a line and stops when that line is
exactly `exit`. Otherwise it cuts the line into sub-commands on `&`
(`multi_command`) and trims each one. It cuts each sub-command into an
argument vector on spaces (`slice_command`). A built-in (`is_inbuilt`:
`cd` or `path`) changes the shell's own working directory or search path.
Anything else forks a child. The child searches the path for the program
(`parse_command`) and executes it. After the last sub-command, `main`
waits once for each child it forked.

The project is organised as one module per part of the program:

| file | module | models |
|---|---|---|
| `wrappers.dfy` | `Wrappers` | `Option` |
| `strings.dfy` | `Strings` | C's `isspace`, one `strsep` call, and the chunks repeated `strsep` calls hand out |
| `tokenizer.dfy` | `Tokenizer` | `slice_command` |
| `splitter.dfy` | `Splitter` | `multi_command` and its in-place trimming |
| `resolver.dfy` | `Resolver` | the directory search loop of `parse_command` |
| `builtins.dfy` | `Builtins` | `is_inbuilt`, `modify_path` and `main`'s `cd` branch |
| `shell.dfy` | `Shell` | `main`: the outer loop, dispatch, children count and wait loop |

The loops of the C program are `while` loops over the same variables here,
each proved against a specification function:

- `Tokens` is the argument vector of `slice_command`.
- `SplitCommands` is the command list of `multi_command`.
- `Resolve` is the search result of `parse_command`.
- `Terminated` reads the entries of the NULL-terminated path array.
- `Step`, `Dispatch`, `LineEffect` and `SessionEffect` give what `main` does to one sub-command, one line and a run of lines.

The lemmas state the properties of those functions.

The shell is a class, `Shell.Shell`, with these fields:

- `path`: the ten-slot `char *path[10]` array, as an `array<Option<string>>`.
- `cwd`: the working directory.
- `children`: the children counter.
- `spawned`: the record of every fork.
- `waited`: the number of `wait` calls.

The operating system is abstracted as follows:

- `access(..., X_OK)` is an oracle from a working directory to the set of candidate paths that pass there. A child searches with the oracle at the working directory it was forked in, since a relative path entry such as `.` is looked up from there.
- `chdir` and `getcwd` together are an oracle that gives the new working directory, or `None` when `chdir` fails.
- `fork` appends a `Spawn` record to `spawned`. The record holds the child's argument vector, copies of the path and working directory as they are at fork time, and the result of the child's path search.
- `wait` increments a counter.

Where the C program has undefined behaviour, the model stops the line with
an explicit `Fault`:

- more than 11 sub-commands overflow the 12-slot `command_list` (line 144);
- more than 31 arguments overflow the 32-slot `arg_list` (line 37);
- an empty sub-command hands `arg_list[0] == NULL` to `strcmp` (line 111);
- `path` with more than 9 directories writes past `path[9]` (lines 129-133).

A candidate file name that does not fit `parse_command`'s 1024-byte buffer
(line 69) gives `Resolution.Overflow`. Methods called with their input already
checked (`SliceCommand`, `MultiCommand`, `ModifyPath`) state the capacity as
a precondition.

## Model

| member | source | states |
|---|---|---|
| Strings.Strsep | processes_multiple.c:42 | one `strsep` call: the chunk holds no delimiter; the pointer becomes NULL exactly when the string holds no delimiter, and then the chunk is the whole string; otherwise the string is chunk, delimiter, rest |
| Strings.ChunksCount | processes_multiple.c:150-171 | repeated `strsep` hands out exactly one chunk more than there are delimiters |
| Strings.ChunksFree | processes_multiple.c:42-50 | no chunk contains the delimiter |
| Strings.JoinChunks | processes_multiple.c:42-50 | the chunks joined by the delimiter give back the input: nothing is lost or reordered |
| Strings.ChunksOfJoin | processes_multiple.c:42-50 | delimiter-free parts joined by the delimiter come back as exactly those parts |
| Tokenizer.SliceCommand | processes_multiple.c:28-60 | the `strsep` loop that skips empty chunks builds exactly `Tokens(input)`, within the 31 arguments `arg_list` has room for |
| Tokenizer.TokensWellFormed | processes_multiple.c:42-50 | no argument is empty and no argument contains a space |
| Tokenizer.TokensKeepNonSpaces | processes_multiple.c:42-50 | the arguments written one after another are the input with its spaces removed: every other character is kept, in order |
| Tokenizer.TokensCountRuns | processes_multiple.c:42-50 | there are exactly as many arguments as maximal runs of non-space characters |
| Tokenizer.TokensOfWords | processes_multiple.c:42-50 | space-free, non-empty words joined by single spaces tokenize back to exactly those words |
| Tokenizer.TokensAreRuns | processes_multiple.c:42-50 | for any cut of the input at its spaces into space-free pieces, the arguments are exactly the non-empty pieces in order: the maximal runs of non-space characters |
| Tokenizer.TabIsNotASeparator | processes_multiple.c:42 | only `' '` separates: `"ls\t-l"` is a single argument |
| Splitter.SkipLeadingSpaces | processes_multiple.c:154-159 | the pointer-advance loop stops at the start of `TrimLeft(piece)` |
| Splitter.CutTrailingSpaces | processes_multiple.c:161-168 | the backward loop that writes NULs leaves exactly `TrimRight` of the left-trimmed piece |
| Splitter.TrimPiece | processes_multiple.c:152-168 | both loops together give `Trim(piece)` |
| Splitter.MultiCommand | processes_multiple.c:136-183 | the command list is `SplitCommands(line)`: every `&`-piece trimmed, in order, within the 11 commands `command_list` has room for |
| Splitter.TrimLeftShape | processes_multiple.c:156-159 | left trimming removes exactly a prefix of `isspace` characters and stops at a non-space or the end |
| Splitter.TrimRightShape | processes_multiple.c:164-168 | right trimming removes exactly a suffix of `isspace` characters and stops at a non-space or the empty string |
| Splitter.TrimIsSlice | processes_multiple.c:154-168 | a trimmed command is the slice of its piece between an all-space prefix and an all-space suffix, with no space at either end; interior characters are untouched |
| Splitter.TrimEmpty | processes_multiple.c:154-168 | a piece trims to the empty string exactly when it consists only of `isspace` characters |
| Splitter.TrimIdempotent | processes_multiple.c:154-168 | trimming a trimmed command changes nothing |
| Splitter.SplitCount | processes_multiple.c:150-171 | a line yields one command more than it has `&` characters, empty pieces included |
| Splitter.SplitWithoutAmpersand | processes_multiple.c:150-171 | a line without `&` yields the single command equal to the trimmed line |
| Splitter.DoubledAmpersand | processes_multiple.c:150-171 | `"ls & & pwd"` yields `["ls", "", "pwd"]`: the empty middle piece is kept |
| Resolver.ParseCommand | processes_multiple.c:62-99 | the search loop over the path returns `Resolve` of the first argument, and NotFound for an empty path without reading the program name |
| Resolver.FoundIsFirstHit | processes_multiple.c:76-90 | the search finds a file exactly when some directory is the first with an executable candidate, and that file is `dir + "/" + program` for it |
| Resolver.NotFoundWhenNoneExecutable | processes_multiple.c:76-96 | "not found" exactly when every candidate fits the buffer and none is executable; an empty path is always "not found" |
| Resolver.LaterDirectoriesIgnored | processes_multiple.c:76-90 | once a directory has matched or overflowed, directories after it do not change the result |
| Resolver.FirstDirectoryWins | processes_multiple.c:76-90 | with `x` executable in both `/a` and `/b`, the path `[/a, /b]` runs `/a/x` |
| Builtins.IsInbuilt | processes_multiple.c:101-121 | true exactly when the first argument is in `inbuilt_list`, i.e. is `"cd"` or `"path"` |
| Builtins.TerminatedAt | processes_multiple.c:127-133 | an array holding some entries and then a NULL reads back as exactly those entries |
| Builtins.ModifyPath | processes_multiple.c:123-134 | the path array now reads as the arguments after `path`, in order; the NULL after them cuts off any longer previous contents; slots past it are unchanged |
| Builtins.ChangeDirectory | processes_multiple.c:217-224 | `cd` moves to what `chdir` reports for the first argument; with no argument or a failed `chdir` the directory stays the same |
| Shell.Shell.constructor | processes_multiple.c:192 | the shell starts with the path `["/bin"]`, no children and nothing forked |
| Shell.Shell.Session | processes_multiple.c:195-259 | the outer loop runs the lines before the first one that is exactly `exit`, stopping at a Fault; its state, forks and fault are those of `SessionEffect`, and with no Fault it has waited once for every child it forked |
| Shell.Shell.RunLine | processes_multiple.c:201-256 | one line changes the path, directory and forks as `LineEffect` says; with no Fault, `children` ends at 0 after one `wait` per child forked on the line |
| Shell.Shell.DispatchAll | processes_multiple.c:206-247 | the dispatch loop over the command list does what `Dispatch` says, and counts one child per fork |
| Shell.Shell.DispatchOne | processes_multiple.c:208-246 | one sub-command: a built-in changes the path or directory, anything else forks one counted child carrying the current path and directory, whose search sees `access` at that directory |
| Shell.Shell.WaitForChildren | processes_multiple.c:250-254 | the wait loop calls `wait` exactly `children` times and ends with `children == 0` |
| Shell.DispatchAppend | processes_multiple.c:206-247 | dispatching two runs of sub-commands is dispatching the first, then, unless it faulted, the second from the state the first left, its children after the first's |
| Shell.DispatchSpawnCount | processes_multiple.c:203-246 | a line forks at most one child per non-built-in sub-command, and exactly that many when no Fault occurs |
| Shell.SpawnSeesPrefix | processes_multiple.c:233-244 | the child of the j-th sub-command carries the path and directory left by the sub-commands before it, searches the path from that directory, and comes right after their children |
| Shell.ExitEndsSession | processes_multiple.c:195 | nothing after a line that is exactly `exit` is ever run |
| Shell.ExitMustBeExact | processes_multiple.c:195-201 | `"exit "` does not end the shell: its sub-command `exit` is forked like any program |
| Shell.EmptySubCommandFaults | processes_multiple.c:206-213 | in `"ls & & pwd"`, `ls` is forked and then the empty sub-command reaches `strcmp` with a NULL name; `pwd` is never run |
| Shell.PathAloneEmptiesPath | processes_multiple.c:227-230 | the line `path` empties the search path and forks nothing |
| Shell.WorkingDirectoryMatters | processes_multiple.c:76-96 | with the relative entry `.` on the path, `x` is found from a directory holding an executable `./x` and not found from one without: a child searches from its own working directory |
| Shell.PathChangeReachesLaterChildren | processes_multiple.c:227-244 | in `"ls & path /usr/bin & ls"` the first child searches `/bin`, the second `/usr/bin`, and the shell keeps `/usr/bin` |

## Left out

- `read_input` (lines 8-26) is not modelled. The lines typed are the parameter `lines` of `Session`. Running out of lines ends the run. The `chars_read - 1` indexing of `getline`'s result at end of input is not modelled.
- Process creation and concurrency are not modelled. A fork is a `Spawn` record. The program the child executes and its run are outside the model. So is the order in which children finish.
- A child whose search ends in "not found" returns from `parse_command` into `main`'s loop (line 244). It then goes on dispatching the rest of the line and reading input as a second shell. The model ends the child at "not found" instead. A failing `execvp` (line 98) would do the same and is not modelled either.
- `access`, `chdir` and `getcwd` are parameters: two oracles over the working directory. The 100-byte `getcwd` buffer (line 219) is not modelled. Neither is any output: the prompt, "Now in ...", `perror` and "Command not found in PATH".
- Memory management is not modelled: `malloc`, `strdup`, `free`, the leak of the pointer-advance trimming and `free(chunk)` on a NULL chunk. Strings are values.
- Undefined behaviour is made explicit, not reproduced. Past a `Fault` the C program's behaviour is undefined, so `Session` stops there.
- Each `char` of a line stands for one byte, and no line holds a NUL byte. The model does not capture two C behaviours that follow from bytes:
  - `Fits` counts characters against the 1024-byte buffer, so a non-ASCII name that takes several bytes per character in C is not counted by its bytes.
  - A NUL inside a line would end every C string built from it (`strdup` at lines 39 and 146, `strcmp` at line 195). The model reads it as an ordinary character.
- `IsSpace` is `isspace` in the "C" locale on `char` values. The undefined `isspace` call on a negative `char` (line 156) is not modelled.
- `Resolver.ParseCommand` requires a first argument when the path is non-empty. `main` never forks for an empty sub-command (`is_inbuilt` has already failed on it), so this is the only case the program reaches.
- Where this code departs from the usual `wish` behaviour, the model follows the code:
  - Arguments are split on the space character only, not on all whitespace (line 42).
  - `cd` uses its first argument and ignores any further ones. With no argument it calls `chdir(NULL)`, which fails and keeps the directory (lines 220-221).
  - An empty sub-command is not skipped. It reaches `strcmp` with a NULL name (line 111).
  - The path search runs in the child after the fork, on the child's copy of `path`. That copy is exactly the snapshot a `Spawn` records.
