# hiredis adapters, SDS headers and the redis cluster script, verified

A Dafny model of the three parts of this repository whose behaviour is hard to see from one body.

**Event-loop adapters** (`Hooks`, `PollAdapter`, `LibuvAdapter`, `LibeventAdapter`, `SdeventAdapter`,
`ModuleAdapter`, `AeAdapter`, `Replay`). Each adapter is a class with the fields of its C record, the
side of the event library it talks to, and a ghost heap cell. Callbacks into the async context are
arbitrary scripts of hook calls, so re-entrancy, cleanup included, is covered. The contract of the
context is stated: cleanup is called at most once and no hook after it; a tick or handler is not
nested on the same record; libuv delivers close callbacks later. Every run is proved to follow a
function on histories, never to read a freed record, and to free each thing exactly once.

**The cluster script** (`Files`, `BuildPhase`, `ConfigPhase`, `DeployPhase`, `Names`, `Cluster`,
`WholeRun`, `Outputs`, `Samples`; texts in `Text`, `Render`, `ConfigTexts`, `Ini`, `Ipv4`, `Actions`; agreement in
`Agreement`, `Delivery`). The file system is a map from paths to files and directories; a process runs
commands, may be killed between any two, and ends at a command that fails, be it only because a
directory stands where it writes a file. The methods are the loops of the script, proved equal to sequences of
commands; the theorems about restarting, markers and whole runs are about those sequences, for all
configurations, file systems, kill points and series of invocations.

**SDS headers** (`Sds`). The five packed layouts as bytes in front of the data pointer.

These results are negative. Each comes with its exact condition, and with an input:

- A kill between opening and filling a marker leaves an empty marker, over which the next invocation
  refuses to run (`ConfigPhase.ConfigRestarts`, `DeployPhase.DeployRestarts`, `Files.KilledAtMarker`).
- `build` cannot be started again once it has begun to unpack, so neither can `ALL`, not even when the
  build had finished (`BuildPhase.BuildRestarts`, `WholeRun.AllRestarts`, `WholeRun.KilledAll`); a
  confirmed clean of the build directory is the way out (`BuildPhase.CleanRecovers`).
- A configured value with a slash makes sed stop; if it is not the last of its pipeline, the rendered
  file is empty and config() goes on (`ConfigTexts.InstanceConfExact`, `ConfigTexts.SlashEmptiesConf`).
- `write_cfg` can write a line `read_cfg` does not read, and overwrite a key it was not asked to
  (`Ini.PutGetIff`, `Ini.WrittenNotRead`, `Ini.TouchedExactly`, `Ini.ShorterKeyOverwritten`).
- Two instances can share one file name when a port has a dash, and then deploy keeps one of them
  (`Agreement.ConfNamesCollide`, `Agreement.DashesCollide`, `Delivery.DeployDelivers`,
  `Samples.CollidersDiffer`).
- A node called like a file beside its directory stops config(), and a data directory called like a file
  copied beside it stops deploy() (`Agreement.ConfigCompletes`, `Samples.NodeLikeMarker`,
  `Delivery.DeployCompletes`, `Samples.DataLikeScript`); called CLUSTER_AUTH_PASS or like a start script,
  they silently take that file in (`Agreement.ConfigDelivers`, `Delivery.DeployDelivers`).
- With `tls_enabled=yes` the TLS placeholders are uncommented but never filled in, because line 285
  replaces the value the later lines compare with `yes` (`ConfigTexts.TlsStaysUnfilled`). The model
  follows the code: the TLS node list and scripts are never written.
- The sd-event adapter never enables its timer source, one-shot by sd_event_add_time(3), again, so at
  most one timeout is ever delivered (`SdeventAdapter.FiresOnce`, `SdeventAdapter.SecondTimeoutLost`, `SdeventAdapter.Run`).

Run `dafny verify dfyconfig.toml` to check everything.

## Model

| member | source | states |
|---|---|---|
| `Hooks.FoldMeaning` | redis/libs/hiredis/include/hiredis/async.h:77-89 | The two flags every adapter keeps mean exactly this: an add that no later delete or cleanup of that direction took back. |
| `Hooks.TimerConservation` | redis/libs/hiredis/include/hiredis/adapters/poll.h:109-164 | If timeouts fire only while armed, timeouts fired plus one if armed never exceed the schedules, for every trace. |
| `Hooks.SentinelUnambiguous` | redis/libs/hiredis/include/hiredis/adapters/poll.h:109-118 | With a positive clock, deadline 0.0 says exactly "no schedule is pending". |
| `Hooks.MillisExact` | redis/libs/hiredis/include/hiredis/adapters/libuv.h:117 | The fractional computation truncated to an integer loses less than a millisecond and never lengthens a timeout. |
| `Hooks.SecondsExact` | redis/libs/hiredis/include/hiredis/adapters/poll.h:28-32 | A timeout in seconds, counted in microseconds, is exactly the seconds and microseconds of the timeval. |
| `Hooks.TimeoutStays` | redis/libs/hiredis/include/hiredis/adapters/libevent.h:82-104 | The timeout every registration carries is the one set last, whatever else has happened since. |
| `PollAdapter.PollEvents.Dispatch` | redis/libs/hiredis/include/hiredis/adapters/poll.h:129-164 | Any hook keeps flags equal to the fold and deadline equal to the trace, a scheduled deadline lying the microseconds of its timeval after the clock; cleanup leaves a doomed record inside a tick and a freed one outside. |
| `PollAdapter.PollEvents.CleanupHook` | redis/libs/hiredis/include/hiredis/adapters/poll.h:149-157 | Freed at once outside a tick, only marked inside one. |
| `PollAdapter.PollEvents.ServeIo` | redis/libs/hiredis/include/hiredis/adapters/poll.h:90-107 | Which callbacks run and which bits are returned: interest sampled before them, no write callback after the read callback tore the context down. |
| `PollAdapter.PollEvents.ServeTimeout` | redis/libs/hiredis/include/hiredis/adapters/poll.h:109-118 | The timeout is delivered exactly when the context still exists and the deadline has passed, and is disarmed before the callback, which may arm it again. |
| `PollAdapter.PollEvents.Tick` | redis/libs/hiredis/include/hiredis/adapters/poll.h:52-127 | A whole tick, written out: nothing without interest; otherwise the read callback, the write callback if there still is a context, and the timeout if it is due; the value returned; and the record freed at its end exactly if the context was torn down in it. |
| `PollAdapter.TickInFull` | redis/libs/hiredis/include/hiredis/adapters/poll.h:90-126 | A tick with interest, written out: who is served, in which order, and the value returned. |
| `PollAdapter.DeliveredWhenDue` | redis/libs/hiredis/include/hiredis/adapters/poll.h:109-118 | A timer scheduled at some time is delivered by a later tick without I/O if and only if there is interest and at least its seconds and microseconds have passed. |
| `PollAdapter.IdleTickStarvesTimer` | redis/libs/hiredis/include/hiredis/adapters/poll.h:63-118 | Corollary: a tick without I/O delivers an expired timeout if and only if there is interest in the descriptor. |
| `PollAdapter.Run` | redis/libs/hiredis/include/hiredis/adapters/poll.h:52-164 | Over every run of hooks and ticks: freed exactly once if torn down and never otherwise, no read of a freed record, and timers conserved. |
| `PollAdapter.NextTurn` | redis/libs/hiredis/include/hiredis/adapters/poll.h:52-164 | Whatever has happened before, every hook call and every tick counts while the context lives, and none afterwards. |
| `LibuvAdapter.LibuvEvents.Add` | redis/libs/hiredis/include/hiredis/adapters/libuv.h:30-66 | Adding interest leaves libuv watching exactly the flags, whether or not the flag was set before. |
| `LibuvAdapter.LibuvEvents.Del` | redis/libs/hiredis/include/hiredis/adapters/libuv.h:43-79 | Removing interest restarts the poll with what is left, or stops it when nothing is. |
| `LibuvAdapter.LibuvEvents.SetTimeout` | redis/libs/hiredis/include/hiredis/adapters/libuv.h:114-128 | The timer is initialised once; if that fails nothing is started, otherwise the timer runs with the truncated milliseconds. |
| `LibuvAdapter.LibuvEvents.CleanupHook` | redis/libs/hiredis/include/hiredis/adapters/libuv.h:130-138 | Exactly the handles libuv knows are closed, and the record stays live for their close callbacks. |
| `LibuvAdapter.LibuvEvents.Dispatch` | redis/libs/hiredis/include/hiredis/adapters/libuv.h:30-138 | Any hook keeps flags, poll mask and timer equal to what the history asks for. |
| `LibuvAdapter.LibuvEvents.OnPoll` | redis/libs/hiredis/include/hiredis/adapters/libuv.h:17-27 | An error status counts as readiness for everything asked for; the read callback comes first, and the write callback is skipped once it has cleaned up. |
| `LibuvAdapter.LibuvEvents.OnTimeout` | redis/libs/hiredis/include/hiredis/adapters/libuv.h:108-112 | A timeout reaches a context that still exists. |
| `LibuvAdapter.LibuvEvents.OnTimerClose` | redis/libs/hiredis/include/hiredis/adapters/libuv.h:81-89 | Frees the record exactly if the poll handle has been reported closed. |
| `LibuvAdapter.LibuvEvents.OnHandleClose` | redis/libs/hiredis/include/hiredis/adapters/libuv.h:91-99 | Frees the record exactly if no timer is still to be reported closed. |
| `LibuvAdapter.Drain` | redis/libs/hiredis/include/hiredis/adapters/libuv.h:81-99 | In either order, the close callbacks owed after cleanup give the record back. |
| `LibuvAdapter.NextTurn` | redis/libs/hiredis/include/hiredis/adapters/libuv.h:17-79 | Whatever has happened before, every hook call counts while the context lives, and every readiness that was asked for. |
| `LibuvAdapter.NextTimeout` | redis/libs/hiredis/include/hiredis/adapters/libuv.h:108-128 | The timeout of the timer set last is delivered if libuv took it, and once. |
| `LibuvAdapter.BothClosed` | redis/libs/hiredis/include/hiredis/adapters/libuv.h:81-138 | After any run that ends in cleanup, the two close callbacks, in either order, leave nothing owed, so that the record is freed. |
| `LibuvAdapter.Run` | redis/libs/hiredis/include/hiredis/adapters/libuv.h:17-138 | For every interleaving of polls, timeouts, failed timer starts, cleanup and close callbacks: the record follows the reference, is freed once, by the last close callback it is owed, and not before. |
| `LibeventAdapter.LibeventEvents.Update` | redis/libs/hiredis/include/hiredis/adapters/libevent.h:82-104 | A change registers a persistent event with mask and timeout of the record; a repetition changes nothing. |
| `LibeventAdapter.LibeventEvents.SetTimeout` | redis/libs/hiredis/include/hiredis/adapters/libevent.h:138-144 | Restores the flags for every earlier value, zero included, and always registers again: with the timeval, or without a timeout if both its parts are zero. |
| `LibeventAdapter.LibeventEvents.CleanupHook` | redis/libs/hiredis/include/hiredis/adapters/libevent.h:122-136 | The event is freed now; the record now or, with the handler on the stack, later. |
| `LibeventAdapter.LibeventEvents.Dispatch` | redis/libs/hiredis/include/hiredis/adapters/libevent.h:82-144 | Any hook keeps the pending event coherent with flags and timeout, and counts its registrations. |
| `LibeventAdapter.LibeventEvents.Handler` | redis/libs/hiredis/include/hiredis/adapters/libevent.h:53-80 | For every event mask and every callback: timeout, read and write in that order, each only while the context exists, written out; ENTERED is set exactly while it runs. |
| `LibeventAdapter.NextTurn` | redis/libs/hiredis/include/hiredis/adapters/libevent.h:53-144 | Whatever has happened before, every hook call and every run of the handler counts while the context lives, and none afterwards. |
| `LibeventAdapter.Run` | redis/libs/hiredis/include/hiredis/adapters/libevent.h:53-144 | Over every run, record and event are each freed exactly once after cleanup, and until then libevent holds the interest of the history. |
| `SdeventAdapter.SdeventEvents.Add` | redis/libs/hiredis/include/hiredis/adapters/libsdevent.h:66-108 | A source is created only when interest arises from nothing, so no live source pointer is overwritten, even after a refusal. |
| `SdeventAdapter.SdeventEvents.Del` | redis/libs/hiredis/include/hiredis/adapters/libsdevent.h:82-120 | The source is released when the last interest goes, and changed otherwise. |
| `SdeventAdapter.SdeventEvents.SetTimeout` | redis/libs/hiredis/include/hiredis/adapters/libsdevent.h:136-145 | At most one timer source, with the latest timeout, seconds times 1000000 plus microseconds; setting the time does not enable a spent source again. |
| `SdeventAdapter.SdeventEvents.Destroy` | redis/libs/hiredis/include/hiredis/adapters/libsdevent.h:20-29 | All sources, the loop reference and the record are released. |
| `SdeventAdapter.SdeventEvents.CleanupHook` | redis/libs/hiredis/include/hiredis/adapters/libsdevent.h:122-134 | Destroys now, or marks for the handler on the stack. |
| `SdeventAdapter.SdeventEvents.Dispatch` | redis/libs/hiredis/include/hiredis/adapters/libsdevent.h:66-145 | Any hook keeps the owned sources exactly the live ones, with the right mask and timeout. |
| `SdeventAdapter.SdeventEvents.Handler` | redis/libs/hiredis/include/hiredis/adapters/libsdevent.h:39-64 | For every readiness and every callback, the read callback first and the write callback if there still is a context; the record survives its use and is destroyed exactly if the context was torn down. |
| `SdeventAdapter.SdeventEvents.TimeoutHandler` | redis/libs/hiredis/include/hiredis/adapters/libsdevent.h:31-37 | sd-event spends the one-shot source and calls back; cleanup from the callback destroys at once and nothing is touched afterwards. |
| `SdeventAdapter.PresentedExactly` | redis/libs/hiredis/include/hiredis/adapters/libsdevent.h:66-120 | Corollary: interest really reaches sd-event if and only if there is none or the I/O source was accepted when interest arose. |
| `SdeventAdapter.FiresOnce` | redis/libs/hiredis/include/hiredis/adapters/libsdevent.h:136-145 | Corollary: a schedule can still be delivered if and only if the timer source was accepted and no timeout has been delivered before. |
| `SdeventAdapter.SecondTimeoutLost` | redis/libs/hiredis/include/hiredis/adapters/libsdevent.h:136-145 | A concrete run, schedule, timeout, schedule, timeout: the second timeout is set and never delivered. |
| `SdeventAdapter.NextTurn` | redis/libs/hiredis/include/hiredis/adapters/libsdevent.h:39-64 | Whatever has happened before, every hook call counts while the context lives, and readiness as far as it was asked for and the source was accepted. |
| `SdeventAdapter.NextTimeout` | redis/libs/hiredis/include/hiredis/adapters/libsdevent.h:31-37 | A timeout is delivered if and only if some timer was accepted and none has been delivered in the whole run. |
| `SdeventAdapter.AcceptedSince` | redis/libs/hiredis/include/hiredis/adapters/libsdevent.h:66-108 | Whether the source was accepted is decided where interest last arose from nothing. |
| `SdeventAdapter.Run` | redis/libs/hiredis/include/hiredis/adapters/libsdevent.h:20-145 | Over every run, with any refusals, everything owned is released exactly once after cleanup, and at most one timeout is ever delivered. |
| `ModuleAdapter.ModuleEvents.SetTimeout` | redis/libs/hiredis/include/hiredis/adapters/redismoduleapi.h:92-100 | One timer runs, with the truncated milliseconds; an earlier one has been stopped. |
| `ModuleAdapter.ModuleEvents.Timeout` | redis/libs/hiredis/include/hiredis/adapters/redismoduleapi.h:84-90 | The timer is spent before the callback, which may schedule the next. |
| `ModuleAdapter.ModuleEvents.CleanupHook` | redis/libs/hiredis/include/hiredis/adapters/redismoduleapi.h:76-82 | Nothing stays registered, no timer runs and the record is freed. |
| `ModuleAdapter.NextTurn` | redis/libs/hiredis/include/hiredis/adapters/redismoduleapi.h:36-100 | Whatever has happened before, every hook call and readiness counts while the context lives, and a timeout if a timer was set that no timeout has followed. |
| `ModuleAdapter.Run` | redis/libs/hiredis/include/hiredis/adapters/redismoduleapi.h:36-100 | Over every run: timers created are exactly those fired, stopped or running, at most one runs, none after cleanup; created and fired are those of the history. |
| `AeAdapter.NextTurn` | redis/libs/hiredis/include/hiredis/adapters/ae.h:45-100 | Whatever has happened before, every hook call counts while the context lives, and readiness for something asked for. |
| `AeAdapter.Run` | redis/libs/hiredis/include/hiredis/adapters/ae.h:45-100 | Over every run ae watches the interest of the history, and the record is freed exactly once. |
| `Replay.ReplayAll` | redis/libs/hiredis/include/hiredis/adapters/libuv.h:30-79 | Refinement: on every trace of hooks, timers included, any two of the six adapters agree, and agree on the interest outstanding. |
| `Replay.AskTwice` | redis/libs/hiredis/include/hiredis/async.h:81-82 | The hooks are idempotent, as the header asks: after any trace, asking twice leaves all six libraries watching what they watch after asking once. |
| `Replay.NotRegisteredAgain` | redis/libs/hiredis/include/hiredis/adapters/libevent.h:86-98 | Corollary: a repeated interest hook does not register the event again. |
| `Replay.EitherFirst` | redis/libs/hiredis/include/hiredis/async.h:81-86 | A read hook and a write hook that follow each other may change places: the hooks of each direction stay the same. |
| `Replay.EitherOrder` | redis/libs/hiredis/include/hiredis/async.h:81-86 | However the same read hooks and the same write hooks are interleaved, with whatever timers between, all six libraries are left watching the same. |
| `Sds.DecodeEncode` | redis/libs/hiredis/include/hiredis/sds.h:53-80 | Storing a number in a field of w bytes and reading it gives the number modulo 256^w. |
| `Sds.ModulusValues` | redis/libs/hiredis/include/hiredis/sds.h:53-80 | The five layouts store 5, 8, 16, 32 and 64 bits, in headers of 1, 3, 5, 9 and 17 bytes. |
| `Sds.SdsString.ReadBytes` | redis/libs/hiredis/include/hiredis/sds.h:93-134 | Which bytes in front of the data say what: the flags last, before them the allocation, before that the length. |
| `Sds.SdsString.ReadInRange` | redis/libs/hiredis/include/hiredis/sds.h:93-108 | What the bytes of a header say is within its layout. |
| `Sds.SdsString.SetLen` | redis/libs/hiredis/include/hiredis/sds.h:136-158 | In every layout the length read afterwards is n modulo the range of the layout (2^5 for type 5); tag, allocation and every byte outside the length field stay. |
| `Sds.SdsString.IncLen` | redis/libs/hiredis/include/hiredis/sds.h:160-183 | In every layout the length read afterwards is (length + n) modulo the range, although the increment is cast first; the allocation and every byte outside the length field stay. |
| `Sds.SdsString.SetAlloc` | redis/libs/hiredis/include/hiredis/sds.h:203-222 | The allocation read afterwards is n modulo the range, except in type 5, where nothing happens; the length and every byte outside the allocation field stay. |
| `Sds.SdsString.Perform` | redis/libs/hiredis/include/hiredis/sds.h:136-222 | Any sequence of calls leaves the header the fold of their effects, and no byte outside the two fields changed. |
| `Sds.AllocIsAvailPlusLen` | redis/libs/hiredis/include/hiredis/sds.h:185-201 | sdsalloc = sdsavail + sdslen if and only if the length does not exceed the allocation; modulo 2^64 it fails only in the 32-bit layout; no layout, or type 5, has nothing available. |
| `Sds.EquationPreserved` | redis/libs/hiredis/include/hiredis/sds.h:185-201 | The equation survives every sequence of calls that keeps the length within the allocation. |
| `Render.PassIsSubstitute` | redis_cluster.sh:381 | One sed pass replaces exactly the occurrences of its placeholder. |
| `Render.PassAgreesIff` | redis_cluster.sh:380-390 | One more pass agrees with the simultaneous substitution on every template if and only if no value put in so far can become part of its placeholder, or it changes nothing. |
| `Render.PipelineIsSubstitute` | redis_cluster.sh:380-390 | The chain of sed passes equals one simultaneous replacement, for any text without nested braces, if sed accepts the values and none can meet a later placeholder. |
| `Render.StagesExact` | redis_cluster.sh:380-390 | The text between any two sed commands is the simultaneous substitution, for every template, if and only if sed accepts every value and none can meet a later placeholder. |
| `Render.AgreesIff` | redis_cluster.sh:380-390 | Every template comes out with the wanted values if and only if sed accepts each value and reads it as what is wanted. |
| `Render.RefusedEmpties` | redis_cluster.sh:380-390 | One sed that stops leaves nothing of the text, unnoticed. |
| `Render.PlainValueIff` | redis_cluster.sh:382-389 | A value inserted as it is comes out as itself if and only if it has no slash, backslash, ampersand or newline. |
| `Render.InterpretSteps` | redis_cluster.sh:382-389 | How sed reads a replacement: an ampersand is what was matched, a backslash makes what follows itself, anything else is itself. |
| `Render.OrderIndependent` | redis_cluster.sh:380-390 | Any two orders of the same passes give the same text. |
| `Render.BracesInValue` | redis_cluster.sh:380-390 | A value with a placeholder in it breaks the equality: a concrete input. |
| `Render.EscapeUndoneIff` | redis_cluster.sh:277-281 | Escaping the slashes of a path is undone by its use as a replacement if and only if it has no backslash, ampersand or newline. |
| `Render.SubstituteConcat` | redis_cluster.sh:380-390 | Substitution works piece by piece across any cut outside a placeholder. |
| `ConfigTexts.InstanceConfExact` | redis_cluster.sh:378-390 | Every template of an instance file comes out with the configured values, if and only if they have no slash, backslash, ampersand or newline (slashes allowed in the escaped home directory). |
| `ConfigTexts.InstanceConfMeaning` | redis_cluster.sh:378-390 | So with plain values an instance file is its template, the one cluster_nodes.cfg names, with all placeholders replaced at once, the home directory unescaped. |
| `ConfigTexts.BindsAll` | redis_cluster.sh:318-319 | Where a template says {ADDRS}, the words of the instance file are exactly the addresses configured for the node, all of them and in order. |
| `ConfigTexts.SlashEmptiesConf` | redis_cluster.sh:388 | A password with a slash leaves every instance file empty. |
| `ConfigTexts.TlsStaysUnfilled` | redis_cluster.sh:283-291 | With TLS on, every TLS directive loses its comment tag and keeps each of its placeholders, for all six TLS placeholders and wherever in the directive they stand; with TLS off, it keeps tag and placeholders. |
| `ConfigTexts.ScriptTextsExact` | redis_cluster.sh:396-408 | Start and shutdown script are every template with node, host and ports put in at once, if and only if these are plain. |
| `ConfigTexts.ConnectTextExact` | redis_cluster.sh:410-415 | The connect script, likewise, with the first port. |
| `ConfigTexts.EnvTextExact` | redis_cluster.sh:430-435 | The environment of the scripts has the home directory unescaped and the other values as configured, if and only if they are plain. |
| `ConfigTexts.StartTextPorts` | redis_cluster.sh:396-401 | Where the template has ports=({PORTS}) the start script has the configured ports. |
| `ConfigTexts.StartTextConf` | redis/sbin/start_redis.sh.0:17-21 | The name the start script gives the configuration file expands, for each port, to the one deploy copies to. |
| `ConfigTexts.ListIsEndpoints` | redis/sbin/create_cluster.sh.0:15-21 | The words of CLUSTER_ALL_NODES are host:port of every instance in node-then-port order, if and only if no host with a port contains a blank. |
| `Ini.ReadCfg` | common.sh:175-182 | The awk scan with its sticky flag returns the value of the first line, from the first mention of the section on, whose name contains the key, as echo prints it. |
| `Ini.ReadIs` | common.sh:175-182 | What that is, written out: of the first line with the key before its first equals sign, the text between the first and the second, as echo prints it, without double quotes. |
| `Ini.ReadNothing` | common.sh:175-182 | Without a line with the section in brackets, or with none that has the key from there on, the text read is empty. |
| `Ini.QuotedPrinted` | common.sh:175-182 | A value in double quotes is read as what is between them, its words with one blank between. |
| `Ini.WriteCfg` | common.sh:192-200 | The sed edit in place rewrites exactly the lines of the section range that match, and no other. |
| `Ini.RewrittenOnly` | common.sh:192-200 | A line that a write changes becomes KEY=VALUE, sets the key, and follows a header of the section with no other header between. |
| `Ini.RewrittenAll` | common.sh:192-200 | Every such line behind the first header of the section becomes that. |
| `Ini.PutGet` | common.sh:175-200 | What reading back gives after any write: the value written if the deciding line was rewritten, otherwise what was read before. |
| `Ini.PutGetIff` | common.sh:175-200 | Every plain value can be read back after writing it, if and only if the first line that shows the key or is rewritten is a rewritten one. |
| `Ini.PutGetInSection` | common.sh:175-200 | So it can when the key stands in its section and no earlier line of it shows the key. |
| `Ini.WrittenNotRead` | common.sh:180 | A concrete file in which a write cannot be read back. |
| `Ini.OtherReadsUnchanged` | common.sh:175-200 | Another read, also of the same key in another section, gives the same if the write spares the lines where it finds section and value, and shows its key on none between. |
| `Ini.SameKeyElsewhere` | common.sh:175-200 | Writing a key in one section leaves the same key of another section as it was. |
| `Ini.TouchedExactly` | common.sh:198 | A write touches exactly the names that differ from the key in how often its last character is repeated. |
| `Ini.ShorterKeyOverwritten` | common.sh:198 | A concrete file in which a write to "ports" overwrites "port". |
| `Ipv4.ValidateIpv4` | common.sh:330-355 | Returns 0 if and only if echo makes of the text four numerals with dots between, each of one to three digits and none above 255. |
| `Ipv4.FieldWeights` | common.sh:300-308 | ipaddr2number gives the first numeral weight 1, and the others 2^8, 2^16 and 2^24. |
| `Ipv4.ZeroMeansOctal` | common.sh:300-308 | A numeral of two or three digits with a zero in front is read in base eight, and fails with an 8 or a 9. |
| `Ipv4.NumberRoundTrip` | common.sh:300-317 | number2ipaddr gives an acceptable address exactly for numbers below 2^32, and ipaddr2number always restores the number. |
| `Ipv4.AddressRoundTrip` | common.sh:300-317 | An accepted address is restored by the round trip if and only if it is nothing but four fields without superfluous leading zeros. |
| `Text.SplitSteps` | redis_cluster.sh:68 | What splitting a list means: a word has no comma and no blank in it, and any number of them may stand around it. |
| `Text.EchoSteps` | common.sh:181 | What echo prints of its words: all of them with one blank between, but none of the options in front. |
| `Actions.TokensAsked` | redis_cluster.sh:68 | A word is among the tokens if and only if it stands in the list of one of the arguments. |
| `Actions.ArrayFind` | common.sh:362-383 | The first index of the element, or -1 exactly if it is absent. |
| `Actions.FlagsIgnoreId` | redis_cluster.sh:68-79 | The action flags depend on the arguments after the id alone. |
| `Actions.ParseArguments` | redis_cluster.sh:62-105 | Accepts exactly the valid ids that are not one of the nine reserved words, and sets each flag exactly if its word, or ALL but for clean, stands in the remaining arguments. |
| `Files.RunIsPrefix` | redis_cluster.sh:48-49 | A killed run has applied exactly a prefix of its commands, no further than the first that fails. |
| `Files.Absorbs` | redis_cluster.sh:265-441 | A run over the leftovers of killed runs ends where a first run would. |
| `Files.MarkerSafety` | redis_cluster.sh:440 | After any attempts killed anywhere, a marker means that everything else is as the uninterrupted run leaves it. |
| `Files.RestartByText` | redis_cluster.sh:265-441 | The same, with the condition that the marker, if it is there, has its text. |
| `Files.KilledAtMarker` | redis_cluster.sh:440 | A kill between opening and filling a marker leaves it empty, and the restart never catches up. |
| `Files.ReachIff` | redis_cluster.sh:48-49 | A sequence of commands gets through exactly when none is one that fails, all sources of copies are there at the start, no directory stands from before where a file is written and no file where a directory is made, and the commands do not do that to each other. |
| `Files.KindAfter` | redis_cluster.sh:303-305 | After commands that are not in the way of each other, a path is a directory if and only if it was one or they made it, and a file if and only if it was one or they wrote it. |
| `Names.ConfigKinds` | redis_cluster.sh:303-440 | The commands of config() are not in the way of each other if and only if no node is called like a file beside its directory, and only the first like the password file. |
| `Names.HomeKinds` | redis_cluster.sh:463-557 | The commands of deploy() are not in the way of each other if and only if the data directory is not called like a file copied beside it. |
| `ConfigPhase.Configure` | redis_cluster.sh:265-441 | config() as a whole, from any process state: refused, killed, failed or completed. |
| `ConfigPhase.TrimmedIs` | redis_cluster.sh:277-281 | A command substitution drops all newlines at the end, and nothing else. |
| `Outputs.ConfigOutputs` | redis_cluster.sh:299-440 | A completed config() has left, for every configured node and port, every file under the name the other scripts look for, with its text. |
| `Outputs.ConfigGuard` | redis_cluster.sh:265-270 | config() begins if and only if CONFIG_SUCCESS is not there. |
| `Outputs.AuthInside` | redis_cluster.sh:394 | If the first node is called CLUSTER_AUTH_PASS, its directory takes the password file in, under the name that has. |
| `ConfigPhase.RenderOutcome` | redis_cluster.sh:396-401 | A pipeline into a file touches nothing else; the file is empty if any of its seds has stopped and holds the rendered text otherwise, but the script ends if and only if it was the last one. |
| `ConfigPhase.ConfigWellFormed` | redis_cluster.sh:265-441 | config() appends only to what it has emptied, reads nothing it wrote, and writes its marker last. |
| `ConfigPhase.ConfigRestarts` | redis_cluster.sh:265-441 | Crash and restart of config, any configuration, any number of kills: the same files, if and only if CONFIG_SUCCESS does not stand there without its text. |
| `ConfigPhase.ConfigMarkerSafe` | redis_cluster.sh:440 | CONFIG_SUCCESS is there only if every other output is complete. |
| `Agreement.ConfNamesCollide` | redis_cluster.sh:349 | Two instances share a file name if and only if they are the same, or one is the other with the dash between node and port shifted. |
| `Agreement.DashesCollide` | redis_cluster.sh:524-525 | With a dash in a port two instances share one name: a concrete input. |
| `Agreement.ConfigCompletes` | redis_cluster.sh:265-441 | An uninterrupted config() completes if and only if the marker is absent, the password file exists, every node has a port, no file name leads into another directory, the last sed of every pipeline accepts its value, no node is called like a file beside its directory (the first may be called like the password file), and nothing of the wrong kind stands where it makes a directory or writes a file. |
| `Agreement.KilledAtConfigMarker` | redis_cluster.sh:440 | A kill point of config from which no invocation recovers. |
| `Agreement.ConfigDelivers` | redis_cluster.sh:265-441 | A completed config() has left every file with its text (list, instance files, node scripts, password file, environment, create script, marker), if and only if no node is called CLUSTER_AUTH_PASS, whose directory would take the password file in. |
| `DeployPhase.IsCurrent` | redis_cluster.sh:489-507 | A node is local if and only if its host is this machine, or one of its addresses stands in the line of ours (a dot of it for any character) with neither letter, digit nor underscore beside it. |
| `DeployPhase.GrepWordIff` | redis_cluster.sh:501-502 | grep -w, written out: the pattern stands somewhere, not inside a longer word. |
| `DeployPhase.LongerIsAnother` | redis_cluster.sh:501-502 | An address is not found in one that is longer by a letter, digit or underscore at either end. |
| `DeployPhase.ForeignIsNotLocal` | redis_cluster.sh:489-511 | A node with another host, whose addresses stand among ours only inside longer words, is not local. |
| `DeployPhase.OwnAddressIsLocal` | redis_cluster.sh:499-506 | A node with one of the addresses of this machine is never missed. |
| `DeployPhase.Deploy` | redis_cluster.sh:444-560 | deploy() as a whole, from any process state: refused, killed, failed or completed. |
| `Outputs.DeployOutputs` | redis_cluster.sh:463-557 | A completed deploy() has left, under the names the other scripts use, every script of every node of this machine, what make installs, environment, password file and list, and the directories. |
| `Outputs.DeployGuards` | redis_cluster.sh:445-460 | deploy() begins if and only if BUILD_SUCCESS and CONFIG_SUCCESS are there and CLUSTER_ALL_NODES is not in the home. |
| `Outputs.DeployTouches` | redis_cluster.sh:463-557 | Completed, failed or killed, deploy() changes nothing of a node that does not run here and nothing outside the home. |
| `DeployPhase.DeployWellFormed` | redis_cluster.sh:463-557 | deploy() writes only to the home, reads only from elsewhere, and copies its marker last. |
| `DeployPhase.DeployRestarts` | redis_cluster.sh:444-560 | Crash and restart of deploy, any number of kills: the same files, if and only if CLUSTER_ALL_NODES does not stand in the home cut short. |
| `DeployPhase.DeployMarkerSafe` | redis_cluster.sh:557 | CLUSTER_ALL_NODES is in the home only if everything else there is complete. |
| `Delivery.DeployCompletes` | redis_cluster.sh:444-560 | Over a completed config(), an uninterrupted deploy() completes if and only if its guards let it in, make install succeeds, the password file was copied, the data directory is not called like a file copied beside it, and nothing of the wrong kind stands where it makes a directory or writes a file. |
| `Delivery.KilledAtDeployMarker` | redis_cluster.sh:557 | A kill point of deploy from which no invocation recovers. |
| `Delivery.DeployDelivers` | redis/sbin/start_redis.sh.0:15-21 | After deploy the home has the list config wrote; the start scripts, if and only if the data directory is not called like one of them; and every port they loop over has its own configuration file under conf/, if and only if no two local instances with different texts share a file name. |
| `Delivery.DashFreeAgree` | redis_cluster.sh:524-525 | Corollary: if no local port has a dash, no two instances collide. |
| `Samples.CollidersDiffer` | redis_cluster.sh:349 | A concrete cluster_nodes.cfg, read as the script reads it, whose instances x with port 1-2 and x-1 with port 2 share a file name and have different texts. |
| `Samples.NodeLikeMarker` | redis_cluster.sh:436-440 | A concrete cluster_nodes.cfg, with a node called CONFIG_SUCCESS, over which config() never completes. |
| `Samples.DataLikeScript` | redis_cluster.sh:555 | With rdb_dir_name set to cluster_env.sh, deploy() never completes. |
| `Delivery.PortsAreWords` | redis/sbin/start_redis.sh.0:15-17 | The array of the start script has exactly the configured ports. |
| `BuildPhase.Compile` | redis_cluster.sh:217-262 | build() as a whole, from any process state: refused, killed, failed or completed. |
| `Outputs.BuildOutputs` | redis_cluster.sh:249-261 | A completed build() has left every file of tar and make with the text written last under its name, and its marker. |
| `Outputs.BuildGuards` | redis_cluster.sh:218-247 | build() begins to unpack if and only if it is not committed, both packages are there and neither has been unpacked. |
| `BuildPhase.BuildRestarts` | redis_cluster.sh:217-262 | A build killed any number of times and started again ends where an uninterrupted one does, if and only if it would be refused anyway, or no run had begun to unpack, or one had left all there is to have: the complete marker, or, where tar or make fails or something stands in the way, what an uninterrupted build leaves. |
| `BuildPhase.KilledWhileUnpacking` | redis_cluster.sh:237-250 | A kill point of build from which no invocation recovers. |
| `BuildPhase.CleanRecovers` | redis_cluster.sh:166-181 | Once the build directory is removed, the next build leaves exactly what the first would have. |
| `Cluster.Clean` | redis_cluster.sh:166-214 | The three questions of clean(), each only for a directory that exists and was asked for, in the order build, config, home. |
| `Cluster.ConfirmedIff` | redis_cluster.sh:172-173 | A reply confirms if and only if it is one of the ten spellings of y and yes. |
| `Cluster.CleanTakes` | redis_cluster.sh:166-214 | clean() changes no tree but those that are there, asked for and confirmed, wherever it is killed; and with the first two questions answered and time enough nothing of those is left. |
| `Cluster.Invoke` | redis_cluster.sh:563-569 | One invocation: clean alone, or build, config and deploy in that order. |
| `Cluster.InvokeIs` | redis_cluster.sh:563-569 | One invocation, written out from the words of the arguments: clean alone, or the phases asked for, each where the one before left off. |
| `Cluster.TouchesOnlyAsked` | redis_cluster.sh:563-569 | An invocation changes a tree only if its id is the argument and the arguments ask for its phase. |
| `Cluster.InvocationSparesHome` | redis_cluster.sh:457-460 | One invocation leaves a home that holds CLUSTER_ALL_NODES alone, unless it is a confirmed clean of it. |
| `Cluster.HomeIsSafe` | redis_cluster.sh:563-569 | Whole-run safety: over any sequence of invocations, each possibly killed or failing, such a home is unchanged until a confirmed clean with deploy or ALL for its id. |
| `Cluster.HomeRemovedIff` | redis_cluster.sh:166-214 | An invocation removes such a home if and only if it is a confirmed clean of it that gets that far, and then nothing of it is left. |
| `Cluster.HomeEnds` | redis_cluster.sh:166-214 | Over a whole run, the home is there until the first confirmed clean of it that gets that far, and nothing of it after that. |
| `Cluster.OthersUntouched` | redis_cluster.sh:85-122 | An invocation for one id changes nothing that belongs to another. |
| `Cluster.HomesApart` | redis_cluster.sh:94-122 | As path texts, the homes of two accepted ids under one parent never overlap. |
| `WholeRun.AllCompletes` | redis_cluster.sh:563-569 | From any files, ALL gets through if and only if nothing has been built, configured or deployed yet, all inputs are there, tar and make succeed, no names clash, nothing stands in the way and it is not killed; and then it has done all three. |
| `WholeRun.AllDelivers` | redis_cluster.sh:563-569 | Whenever ALL gets through, the home has the list; the start scripts, if and only if the data directory is not called like one; and every configuration file they name, if and only if no two local instances with different texts share a name. |
| `WholeRun.AllMeansAll` | redis_cluster.sh:70-79 | Corollary: the word ALL asks for all three phases, if and only if clean is not among the words, too. |
| `Samples.CanBeMet` | redis_cluster.sh:299-322 | An empty machine and a concrete cluster_nodes.cfg, read as the script reads it, meet everything that AllCompletes asks for. |
| `WholeRun.BuildBlocks` | redis_cluster.sh:218-247 | Corollary: once redis has been unpacked or the build committed, no invocation that includes build does anything any more. |
| `WholeRun.AllRestarts` | redis_cluster.sh:563-569 | ALL, killed any number of times and started again, ends where an uninterrupted one does, if and only if no killed run had begun to unpack redis, or one had finished. |
| `WholeRun.KilledAll` | redis_cluster.sh:563-569 | A kill point of ALL after which invoking it again does nothing. |

## Left out

- Hooks.MillisExact: times are reals and naturals, because rounding of doubles and overflow of `tv_sec * 1000` are not modelled; neither are negative timevals.
- PollAdapter.PollEvents.Tick: the conversion of the tick's timeout argument to milliseconds is not modelled, since the outcome of poll is arbitrary here; nested ticks are excluded by the contract.
- LibuvAdapter.LibuvEvents.SetTimeout: failures of uv_poll_start and uv_timer_start, which the code ignores, are not modelled; those of uv_timer_init are.
- SdeventAdapter.SdeventEvents.Handler: that a source is disabled by sd-event when its handler returns an error is not modelled; the handlers always return 0.
- ModuleAdapter.ModuleEvents.SetTimeout: failures of the server's calls, which the code ignores, are not modelled; neither are those of aeCreateFileEvent in AeAdapter.
- Attach functions: the error returns for an attached context and for failed allocation or initialisation.
- The libev, ivykis, glib, macosx, qt and libhv adapters, which repeat the flag pattern or live in their libraries.
- The RESP reader, command formatting, the async core and the growing SDS operations: their sources are not in this repository, so a callback is an arbitrary script of hooks.
- Sds.SdsString.SetLen: big-endian machines and a size_t of other than 64 bits are not modelled.
- ConfigPhase.Configure: a node called `.` or `..`, whose directory is the root itself or the one above; the directories above a node whose name has a slash, which mkdir would make before the script ends; a directory that stands from before at CLUSTER_AUTH_PASS, into which cp would copy, while here the copy fails.
- DeployPhase.Deploy: `chmod +x` and file modes; the TLS files, which config never writes; `make install` is a list of files under bin, lib and include, with success or failure; a data directory whose name has a slash or is a dot or two; a directory that stands from before at the name of a script in the home and is not the data directory, into which cp would copy, while here the copy fails.
- DeployPhase.IsCurrent: characters special to grep other than the dot are read as themselves.
- BuildPhase.Compile: tar and make are opaque lists of files with success or failure, and a package unpacks to its name and version; a file that stands from before in place of a source directory, which tar would replace, while here unpacking fails.
- Cluster.Clean: `rm -rf` is one step, so a kill inside it is not modelled.
- Cluster.Invoke: sourcing the cluster's ini file, checking that its files exist and comparing package versions are one boolean; the four trees of the script are assumed disjoint, which HomesApart proves for homes under one parent.
- Render.StagesExact: a value that goes on as sed commands after an unescaped slash (with `#`, `;`, `}`, `w` or `e`) is taken to make sed stop like any other slash, and a backslash before a letter or digit in a replacement (GNU extensions) is read as making it literal.
- Ini.ReadCfg: section and key stand for themselves in the patterns; file name expansion of the unquoted value, and the backslashes that `echo -e` interprets, are not modelled; neither is a missing file, which gives the empty text.
- Ipv4.ValidateIpv4: backslashes after `echo -e` are not modelled, and neither is the 64-bit wrap-around of shell arithmetic; the numbers here are far below it.
- ConfigTexts.ListIsEndpoints: xargs also interprets quotes and backslashes, which are not modelled.
- Actions.ParseArguments: file name expansion of the unquoted argument words; the messages.
- Silent failures inside pipelines, since the scripts do not set pipefail, are modelled for sed and for an unreadable template, which gives an empty file.
- `rediscmd.c`, the certificate scripts, OS detection and coloured output: I/O and data.
