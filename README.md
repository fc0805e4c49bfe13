# A verified model of the `ssh` session class

The `ssh` class in `ssh.class.php` is a small SSH client session. It keeps the
connection parameters (host, login, password, port), connects and
authenticates lazily, caches the connection, and offers these operations:

- running commands through `__invoke`, which takes a command, a list of
  commands, or nested lists;
- listing a remote directory (`ls`) and creating one (`mkdir`);
- SCP download and upload;
- opening a TCP tunnel;
- `reconnect`, and a `disconnect` that the destructor calls.

This project models that class in Dafny and proves properties of the model.

All real work is done by the PHP `ssh2` extension. Here the extension is a stub,
the `Transport` class. Each of its primitives returns a value the verifier cannot
predict (a havoc assignment). Each call and its answer are appended to a ghost
`log`. A channel returned by `ssh2_exec` is a finite sequence of chunks. A
directory opened through the `ssh2.sftp://` wrapper is a finite sequence of
entries. Each entry carries its name and the answer `filetype` gives for it.

The modules are:

- `Transport`: the extension stub, plus PHP string truthiness (`Falsy`: exactly
  `""` and `"0"`).
- `Output`: `Collect`, the text that `exec`'s read loop gathers from a channel.
- `Paths`: `NormalizePath`, the path rewriting `ls` does, and `Listing`, the
  records `ls` keeps.
- `Dispatch`: `Cmd`/`Res` and `EvalArgs`, the value `__invoke` computes from its
  arguments and from exec's answers.
- `Session`: the class, with the `connected` flag and the `handle` field updated
  in place.

Most `Session` methods return ghost values that name the calls they made:

- `Exec`, `Ls`, `Mkdir`, `Tunnel`, `Download` and `Upload` return `calls` and
  `sent`. `calls` holds the calls their implicit `connect()` made, and `sent`
  the calls they made after that. Each of these contracts says that when
  `connect()` fails, the result is false (`None`) and `sent` is empty: the
  primitive was not called.
- `Connect` returns its `calls`.
- `Disconnect` and `Teardown` return `exit`, the `exec("exit")` call they made,
  if any. `Reconnect` returns `exit` and the `calls` of its new connection.
- `Invoke`, `Run` and `RunEach` return `steps`, the calls they appended to the
  log, exec by exec.

The session also keeps a ghost record of every `exec`: the command, the answer,
and the `ssh2_exec` call behind it (none when connecting failed). The invariant
`Valid` ties each answer to its call: false without a call or without a
channel, and otherwise `Collect` of the chunks that call's channel yielded, for
a call whose command is the one asked for.

The contract of `Invoke` says that the log grows by exactly the concatenation
of its `steps`, and that these form a `Trace`: exec j made the calls `steps[j]`,
starting in the connection state (`Link`) that exec j - 1 left. One exec's
calls (`ExecStep`) are these:

- when connected, just its `ssh2_exec` call, on the live handle;
- otherwise, a dial to the session's host and port; if that gave a handle, a
  password authentication of it with the session's login and password; and
  then the `ssh2_exec` call on that handle exactly when the authentication
  succeeded.

The connection state afterwards is `Final` of the steps, so a live connection
stays live and on the same handle. From this, `StepReachesExactlyWhenUp` shows
that an exec reaches `ssh2_exec` exactly when it leaves the session connected.
`TraceGivesExecsVia` shows that the `ssh2_exec` calls are exactly those behind
the answers, in the order the commands ran. `ConnectedCallsInOrder` shows
that, starting connected, they are all the calls made. `FreshPairScenario`
derives the calls of two commands on a fresh session.

`__invoke` is modelled as written, not as an idealised "structure
preserving" dispatcher:

- exactly one argument is never wrapped;
- a one-element array is spread into a one-argument call, so `[x]` gives the
  same result as `x`;
- zero or two or more arguments give a list of that length, in order.

The nesting of the input is mirrored in the result exactly when no array in it
has one element (`ShapeMirroredExactly`). `SingletonBreaksShape` exhibits the case
where it is not mirrored.

Where the code does something its comments do not suggest, the model follows the
code:

- `ls` returns false, not an empty array, when the connection fails;
- a command whose output is the single chunk `"0"` yields `""`, because the read
  loop `while ($b = fread(...))` stops at any falsy chunk;
- `ls("")` and `ls("//")` open `/`, not the `/./` used for `ls("/")`, so path
  normalisation is not idempotent at `/`.

## Model

| member | source | states |
|---|---|---|
| Session.Session.constructor | ssh.class.php:57-62 | The parameters are stored unchanged, with defaults "localhost", "root", "" and 22. The session starts disconnected, with no handle. |
| Session.Session.Connect | ssh.class.php:177-190 | When already connected: returns true, makes no call, keeps the handle. Otherwise makes exactly one dial to host:port. If the dial fails: returns false, makes no further call, stays disconnected. If it succeeds: makes one password authentication on the new handle and returns its answer, which becomes `connected`. The invariant holds that `connected` implies a logged successful authentication of the current handle with the session's login and password. |
| Session.Session.Disconnect | ssh.class.php:213-218 | When connected: sends exactly one `exec("exit")` on the live handle and clears `connected`. When not connected: makes no call. |
| Session.Session.Teardown | ssh.class.php:64-66 | Ending the session disconnects: at most one "exit" is sent, and only if a connection was live. |
| Session.Session.Reconnect | ssh.class.php:145-148 | Sends "exit" exactly once if connected (none otherwise), then always makes a fresh connection attempt. Returns that attempt's outcome, which is also the new `connected`. |
| Session.Session.Valid | ssh.class.php:177-190 | `connected` implies that the log holds the dial that gave the current handle, immediately followed by a successful password authentication of that handle with the session's login and password. Every recorded exec answer is false when no `ssh2_exec` call was made, and otherwise is `Answer` of that call, whose command is the one asked for. |
| Session.Session.Exec | ssh.class.php:192-211 | If connect fails: returns false and does not call ssh2_exec. Otherwise opens exactly one exec channel for the command on the live handle. Returns false if the channel does not open. Otherwise returns `Collect` of its chunks. The command, the answer and the ssh2_exec call are appended to the ghost record of execs. |
| Session.Session.Invoke | ssh.class.php:68-86 | Runs exactly the commands `LeavesAll(args)`, in order, with one exec each. Returns `EvalArgs(args, answers)` for the answers those execs gave. The log grows by exactly the concatenated `steps`, which form a `Trace` from the old connection state over the new exec records. Each exec therefore connects first when not connected, and reaches ssh2_exec on the resulting handle exactly when that succeeded. The new connection state is `Final` of the steps, and a live connection stays live on the same handle. |
| Session.Session.RunEach | ssh.class.php:77-83 | The foreach runs the arguments in turn. It returns `EvalEach(args, answers)`, one result per argument in order. The log grows by exactly the concatenated `steps`, with the same `Trace` and final connection state as `Invoke`. |
| Session.Session.Run | ssh.class.php:71-74 | An array argument is spread into a new `__invoke` call. A string argument is executed as one `ExecStep`. The result is `Eval` of the argument on the answers of its commands. The log grows by exactly the concatenated `steps`, with the same `Trace` and final connection state as `Invoke`. |
| Session.Attempt | ssh.class.php:177-188 | One connection attempt: a dial to the session's host and port, then, only if it gave a handle, one password authentication of that handle whose answer is the outcome. |
| Session.ExecStep | ssh.class.php:192-199 | One exec's calls and record from a connection state. Connected: only its ssh2_exec call, on the live handle. Otherwise: a dial, an authentication if the dial gave a handle, and the ssh2_exec call on that handle exactly when the authentication succeeded. The record is that call, or none. |
| Session.After | ssh.class.php:177-190 | The connection state after one exec: unchanged when connected; otherwise the dial's handle, connected exactly when its authentication succeeded. |
| Session.Trace | ssh.class.php:68-86 | A run of execs: each is an `ExecStep` from the state the previous one left. |
| Session.Final | ssh.class.php:68-86 | The connection state after a run of execs. |
| Session.Flatten | ssh.class.php:68-86 | All calls of a run of execs, in order. |
| Session.FlattenAppend | ssh.class.php:77-83 | The calls of two consecutive runs are the calls of the first followed by those of the second. |
| Session.TraceAppend | ssh.class.php:77-83 | Two runs compose into one when the second starts in the state the first ends in, and the final state is the second run's final state. |
| Session.SingleTrace | ssh.class.php:71-74 | One exec is a run of one step, ending in that step's state. |
| Session.StepReachesExactlyWhenUp | ssh.class.php:192-199 | An exec reaches ssh2_exec exactly when it leaves the session connected. Its call is then the last it made and is on the live handle, and a connected session stays as it was. |
| Session.UpStaysUp | ssh.class.php:177-178 | A run of execs that starts connected ends in the same state. |
| Session.ExecStepOf | ssh.class.php:192-199 | What one exec's connect result and calls give is an `ExecStep` whose resulting state is the new connection state. |
| Session.StepExecsVia | ssh.class.php:192-199 | One exec's calls are only dials, authentications and ssh2_exec calls; their ssh2_exec call is the recorded one; and when connected it is the only call. |
| Session.TraceGivesExecsVia | ssh.class.php:68-86 | A run of execs makes only dials, authentications and ssh2_exec calls. Its ssh2_exec calls are exactly those behind the exec records, in exec order. Starting connected, those are all its calls, each on the live handle. |
| Session.FreshPairScenario | ssh.class.php:27 | Two commands on a disconnected session, the first of which reached ssh2_exec, make exactly a dial, a successful authentication on its handle, and the two ssh2_exec calls on that handle, with no second dial. |
| Session.OneExecVia | ssh.class.php:192-199 | The shape of a single exec's calls (a dial, perhaps an authentication, then at most one ssh2_exec call; or just that call when connected) gives `ExecsVia` for its recorded exec. Whether that call happens is stated by `ExecStep`. |
| Session.ExecsViaAppend | ssh.class.php:77-83 | Consecutive runs of execs compose: the concatenated calls satisfy `ExecsVia` for the concatenated exec records. A live connection that survives the first run carries over. |
| Session.ConnectedCallsInOrder | ssh.class.php:178-198 | Starting connected, the calls are exactly one ssh2_exec call per exec, in exec order, each the recorded call and each on the live handle. |
| Session.Session.Ls | ssh.class.php:93-136 | If connect fails: returns false with no SFTP call. If the SFTP handle fails: returns an empty list. Otherwise opens `NormalizePath(path)` on that handle. Returns an empty list if that fails, and `Listing` of the directory's entries otherwise. |
| Session.Session.Mkdir | ssh.class.php:164-175 | If connect fails: returns false with no SFTP call. If the SFTP handle fails: returns false with no mkdir call. Otherwise makes one mkdir call with the given path and mode (default 0777) and returns the provider's answer. |
| Session.Session.Tunnel | ssh.class.php:138-143 | If connect fails: returns false with no tunnel call. Otherwise makes one tunnel request to the given host and port on the live handle and returns the provider's stream or failure. |
| Session.Session.Download | ssh.class.php:150-155 | If connect fails: returns false with no SCP call. Otherwise makes one SCP receive of remote to local and returns its answer. |
| Session.Session.Upload | ssh.class.php:157-162 | If connect fails: returns false with no SCP call. Otherwise makes one SCP send of local to remote with the mode (default 0777) and returns its answer. |
| Transport.Transport.Connect | ssh.class.php:179 | ssh2_connect: an unpredictable handle or failure, logged with host and port. |
| Transport.Transport.AuthPassword | ssh.class.php:184 | ssh2_auth_password: an unpredictable answer, logged with handle, login and password. |
| Transport.Transport.Exec | ssh.class.php:198 | ssh2_exec: an unpredictable fresh channel or failure; the logged call records the chunks the channel will yield. |
| Transport.Transport.Sftp | ssh.class.php:98 | ssh2_sftp: an unpredictable SFTP handle or failure, logged. |
| Transport.Transport.SftpMkdir | ssh.class.php:174 | ssh2_sftp_mkdir: an unpredictable answer, logged with path and mode. |
| Transport.Transport.OpenDir | ssh.class.php:117-118 | opendir on the sftp wrapper: an unpredictable fresh directory or failure; the logged call records its entries. |
| Transport.Transport.ScpRecv | ssh.class.php:154 | ssh2_scp_recv: an unpredictable answer, logged with both paths. |
| Transport.Transport.ScpSend | ssh.class.php:161 | ssh2_scp_send: an unpredictable answer, logged with both paths and the mode. |
| Transport.Transport.Tunnel | ssh.class.php:142 | ssh2_tunnel: an unpredictable stream or failure, logged with host and port. |
| Transport.Channel.Read | ssh.class.php:201 | fread: yields the next chunk in order, and "" once the chunks are exhausted. |
| Transport.Dir.Read | ssh.class.php:124 | readdir: yields the next entry in order, and false once the entries are exhausted. |
| Transport.Falsy | ssh.class.php:201 | PHP's truthiness of a string: exactly "" and "0" are false. The read loop at line 201 and the `?:` at line 130 use it. |
| Output.Collect | ssh.class.php:197-203 | The text `exec` gathers: the chunks are appended in order until the first falsy one, or until the end. |
| Output.ReadOutput | ssh.class.php:201-203 | The read loop over a freshly opened channel returns exactly `Collect` of the channel's chunks. |
| Session.Answer | ssh.class.php:198-210 | exec's answer for a logged ssh2_exec call: false without a channel, and `Collect` of the channel's chunks otherwise. |
| Output.CollectStopsAtFirstFalsy | ssh.class.php:197-203 | If the first falsy chunk is at index k (or there is none and k is the length), exec's output is exactly the in-order concatenation of the chunks before k. |
| Output.CollectAllTruthy | ssh.class.php:201-203 | A channel with no falsy chunk yields the concatenation of all its chunks. |
| Output.CollectIgnoresRest | ssh.class.php:201-203 | Nothing after the first falsy chunk, whether "" or "0", reaches the output. |
| Output.CollectIsPrefix | ssh.class.php:201-203 | The output is always a prefix of the channel's whole text. |
| Output.ZeroChunkIsDropped | ssh.class.php:201 | A channel whose first chunk is "0" yields "", whatever follows. |
| Paths.ForwardSlashes | ssh.class.php:104 | Same length as the input; every backslash becomes '/', and every other character is kept in place. |
| Paths.TrimTrailingSlashes | ssh.class.php:110 | The result is a prefix of the input and does not end in '/'. Everything the input has beyond it is '/'. |
| Paths.NormalizePath | ssh.class.php:104-111 | The result has no backslash, ends in '/', and never ends in two slashes. |
| Paths.NormalizeNonRoot | ssh.class.php:110 | When the converted input is not "/": the result minus its final slash is a prefix of the converted input, and the rest of the input is only slashes. |
| Paths.NormalizeRootCases | ssh.class.php:107-111 | "/" and "\\" become "/./". "" and any run of two or more slashes become "/". |
| Paths.NormalizeIdempotent | ssh.class.php:104-111 | Normalising twice equals normalising once, unless the result is "/". |
| Paths.NormalizeNotIdempotentAtRoot | ssh.class.php:107-111 | "" normalises to "/", which normalises again to "/./". |
| Paths.IsDotEntry | ssh.class.php:125 | The entries `ls` skips: exactly "." and "..". |
| Paths.Info | ssh.class.php:129-132 | The record for one entry: its name, and its file type if that is present and truthy, otherwise "file" (the `?:` fallback). |
| Paths.Listing | ssh.class.php:124-133 | There are never more records than entries. |
| Paths.ListingAppend | ssh.class.php:124-133 | The listing of two concatenated entry sequences is the concatenation of their listings, so read order is kept. |
| Paths.ListingMembers | ssh.class.php:124-133 | A record appears if and only if it is the record of some entry not named "." or "..". |
| Paths.ListingKinds | ssh.class.php:129-132 | Every record's type is truthy and its name is not "." or "..". Some entry has the record's name, and the type is either that entry's own file type or "file". |
| Paths.ReadListing | ssh.class.php:124-133 | The readdir loop over a freshly opened directory returns exactly `Listing` of its entries. |
| Paths.NoDotEntries | ssh.class.php:125-127 | No record is named "." or "..". |
| Dispatch.FromExec | ssh.class.php:192-210 | exec's answer as a result item: the string it returns, or false. |
| Dispatch.Leaves | ssh.class.php:70-83 | The commands one argument runs, in execution order: a string runs itself, and an array runs the commands of its elements left to right. |
| Dispatch.LeavesAll | ssh.class.php:77-83 | The commands an argument list runs: those of each argument, left to right. |
| Dispatch.Eval | ssh.class.php:71-74 | The result of one argument: exec's answer for a string, and the spread call's result for an array. |
| Dispatch.EvalArgs | ssh.class.php:68-86 | The value `__invoke` returns: for exactly one argument, that argument's own result, unwrapped; otherwise the list of the arguments' results. |
| Dispatch.EvalEach | ssh.class.php:77-83 | The foreach produces exactly one result per argument. |
| Dispatch.LeavesAllAppend | ssh.class.php:77-83 | The commands of concatenated argument lists run in left-to-right order. |
| Dispatch.EvalEachAt | ssh.class.php:77-83 | Result i is argument i's own evaluation on the answers of argument i's commands. |
| Dispatch.ManyArgumentsGiveList | ssh.class.php:76-85 | With zero or two or more arguments the result is a list. It has one item per argument, in order, and item i is argument i's result. |
| Dispatch.NoArguments | ssh.class.php:69-85 | No arguments, and a single empty array, both give an empty list. |
| Dispatch.SingleCommandUnwrapped | ssh.class.php:70-75 | One command string gives exec's answer itself, not a one-element list. |
| Dispatch.SingletonCollapses | ssh.class.php:71-72 | A one-element array as the sole argument runs the same commands as its element, and gives the same result as that element alone. |
| Dispatch.ShapePreserved | ssh.class.php:68-86 | An argument with no one-element array anywhere gets a result of the same nesting: a list of equal length per array, and a non-list per command. |
| Dispatch.EvalShrinks | ssh.class.php:70-83 | A result never has more nodes than its argument, and strictly fewer when the argument holds a one-element array somewhere. |
| Dispatch.NestingLostWithSingleton | ssh.class.php:70-83 | An argument with a one-element array anywhere never gets a result of the same nesting, whatever the answers. |
| Dispatch.ShapeMirroredExactly | ssh.class.php:68-86 | The result has the argument's nesting if and only if no array in the argument has exactly one element. |
| Dispatch.SingletonBreaksShape | ssh.class.php:70-83 | `$ssh(array("a"), "b")` runs a then b. It returns a list of two plain outputs, not a list whose first item is a list holding a's output, so the nesting of the input is not mirrored. |
| Dispatch.BatchScenario | ssh.class.php:25 | An array of "cmd1" and "cmd2" runs cmd1 then cmd2 and returns both outputs in that order. |

## Left out

- The ssh2 extension itself (connection, authentication, the exec, SFTP, SCP and tunnel protocols): its answers are unconstrained values, recorded in a log.
- `stream_set_blocking`, the lack of any timeout, and the 4096-byte size limit of each `fread`: a channel is any finite sequence of chunks.
- `fclose` of the exec channel, and the content of tunnel and transfer streams: they affect no value the class returns.
- The `ssh2.sftp://{$sftp}` URL that `ls` builds: the directory is opened from the SFTP handle and the normalised path. Each entry carries its `filetype` answer instead of a separate call on `$path.$file`.
- Destructor timing under garbage collection: `__destruct` is the explicit `Teardown` method.
- `@` error suppression, PHP's private visibility of `exec` and `disconnect`, non-string scalar arguments to `__invoke`, and string keys in argument arrays.
- The initial `""` and the `false` that a failed dial leaves in `$connect`: both are `None`.
- example.php: a caller script with no logic of its own.
