# Parking-spot server: command handler model

The server manages a pool of parking spots shared by every client
connection. It starts with `VAGAS_INICIAIS = 10` free spots in the global
counter `vagas_disponiveis`. Each connection is served by `escutar_cliente`,
which keeps a local flag `tem_vaga` (does this connection hold a spot?) and
reads one command at a time. It strips surrounding whitespace and answers:

- `consultar_vaga` (query): the decimal count of free spots;
- `pegar_vaga` (acquire): `"1"` and one spot fewer when a spot is free and
  the connection holds none, `"0"` otherwise;
- `liberar_vaga` (release): `"1"`, one spot more, and the end of the session
  when the connection holds a spot; `"0"` otherwise;
- anything else: `"-1"`.

An empty read ends the session. Nothing is returned to the pool at that
point.

The Dafny project has five modules:

- `Text` (Text.dfy): Python's `str.strip()`, with the whitespace set of
  `str.isspace`.
- `Decimal` (Decimal.dfy): Python's `str()` on an integer, and a reference
  parser for the canonical numerals it produces.
- `Protocol` (Protocol.dfy): pure specifications. `Step` is one command
  handled under the lock, on the pair (free spots, `held`). `Run` is one
  connection's loop over its incoming messages. `AcquireRound` is a burst of
  acquire requests from connections that hold nothing.
- `ParkingServer` (ParkingServer.dfy): the state as objects. `Pool` holds the
  counter and `Session` holds `held`. `Session.Handle` handles one message and
  `Session.Serve` runs the handler's loop. `Server` accepts sessions and
  delivers their commands one at a time, in any interleaving. Its invariant
  `Valid()` is the conservation law: free spots plus the number of sessions
  holding a spot is always 10.
- `ReadersGate` (ReadersGate.dfy): the readers-writers gate reduced to its
  state (`read_count`, and whether `resource_lock` is taken). It models the
  query branch as written and with its exit in a `finally` clause (see
  "## Findings").

Each command is modelled as one atomic step. That is what the server's lock
provides: acquire and release take the resource lock exclusively, and a
query reads under the readers' gate. This holds only while every command
leaves the gate as it found it; "## Findings" shows one path where it does
not. The atomic-step model assumes the corrected gate.

A robust server would return the spot of a connection dropped while holding
it. This code does not: its `finally` block only closes the socket. The model follows the code. A session that ends
keeps its `held` flag, and `Server.Valid()` still counts its spot as held.
`DroppedHolderKeepsSpot` shows the effect.

## Model

| member | source | states |
|---|---|---|
| `Text.IsWhitespace` | src/server.py:45 | the whitespace set of Python's `str.isspace`, which `strip()` removes; characterised through `Text.LeadingWhitespace`, `Text.TrailingWhitespace` and `Text.StripCharacterization` |
| `Text.Strip` | src/server.py:45 | the stripped command is no longer than the message, starts and ends with a non-whitespace character, and is empty exactly when the message is all whitespace |
| `Text.LeadingWhitespace` | src/server.py:45 | the number of leading characters stripped: all of them whitespace, and the next one (if any) is not |
| `Text.TrailingWhitespace` | src/server.py:45 | the number of trailing characters stripped: all of them whitespace, and the one before them (if any) is not |
| `Text.StripCharacterization` | src/server.py:45 | whenever a message splits as whitespace, a core with non-whitespace ends, and whitespace, `Strip` returns exactly that core |
| `Text.StripPadded` | src/server.py:45 | a command with whitespace before and after it (such as a trailing newline) strips back to the bare command |
| `Text.StripIdempotent` | src/server.py:45 | stripping a stripped command changes nothing |
| `Decimal.NatToDecimal` | src/server.py:56 | the reply to a query is a non-empty string of digits with no leading zero, one digit long exactly for counts below 10 |
| `Decimal.IntToDecimal` | src/server.py:56 | `str(n)`: it starts with `-` exactly for a negative value, and is otherwise a canonical numeral |
| `Decimal.DecimalRoundTrip` | src/server.py:56 | reading the numeral of a count in base ten gives the count back |
| `Decimal.CanonicalRoundTrip` | src/server.py:56 | every canonical numeral is the numeral of its own value, so numerals and counts correspond one to one |
| `Decimal.NatToDecimalInjective` | src/server.py:56 | different counts get different query replies |
| `Decimal.IntRoundTrip` | src/server.py:56 | parsing `str(i)` gives `i`, for negative values too |
| `Protocol.Step` | src/server.py:42-99 | one received message handled under the lock; characterised by `Protocol.QueryStep`, `Protocol.AcquireStep`, `Protocol.AcquireRefused`, `Protocol.ReleaseByHolder`, `Protocol.ReleaseWithoutSpot`, `Protocol.UnrecognizedStep`, `Protocol.EmptyMessageStep`, `Protocol.StepConserves` and `Protocol.StepStops` |
| `Protocol.QueryStep` | src/server.py:48-63 | a query replies with the decimal count, which parses back to the count, and changes neither the counter nor `held`; the session goes on |
| `Protocol.AcquireStep` | src/server.py:65-78 | an acquire replies `"1"` exactly when a spot is free and the session holds none; then the counter drops by exactly one and `held` becomes true; the session goes on |
| `Protocol.AcquireRefused` | src/server.py:69-74 | an acquire with no free spot, or by a session that already holds one (no double acquire), replies `"0"` and changes nothing |
| `Protocol.ReleaseByHolder` | src/server.py:80-95 | a release by a holder replies `"1"`, raises the counter by exactly one, clears `held`, and ends the session |
| `Protocol.ReleaseWithoutSpot` | src/server.py:80-94 | a release by a session that holds nothing replies `"0"`, changes nothing (no phantom release), and the session goes on |
| `Protocol.UnrecognizedStep` | src/server.py:97-99 | any other non-empty message, whitespace-only included, replies `"-1"`, changes nothing, and the session goes on |
| `Protocol.EmptyMessageStep` | src/server.py:42-44 | an empty read sends nothing, changes neither the counter nor `held`, and ends the session |
| `Protocol.StepConserves` | src/server.py:65-90 | every command keeps free spots plus this session's held spot constant, and never makes the counter negative |
| `Protocol.StepStops` | src/server.py:41-95 | the loop ends exactly after an empty read or after a successful release |
| `Protocol.Run` | src/server.py:41-99 | the `while True` loop of one connection over the messages it receives; characterised by `Protocol.RunStaysClosed`, `Protocol.RunConsumes` and `Protocol.RunConserves` |
| `Protocol.RunStaysClosed` | src/server.py:41-99 | once the loop has ended, later messages are never read and change nothing |
| `Protocol.RunConsumes` | src/server.py:41-99 | the loop sends at most one reply per message read, reads no more messages than arrive, and reads and answers all of them while it goes on |
| `Protocol.RunConserves` | src/server.py:41-99 | over a whole session, free spots plus the session's held spot stay constant and the counter stays non-negative |
| `Protocol.AcquireRound` | src/server.py:65-78 | connections that hold nothing each send one acquire, admitted one at a time by the lock; characterised by `Protocol.AcquireRoundWinners` |
| `Protocol.AcquireRoundWinners` | src/server.py:65-78 | when n sessions that hold nothing each acquire while k spots are free, exactly min(k, n) get `"1"`, the others get `"0"`, and exactly min(k, n) spots leave the pool |
| `Protocol.MixedRound` | src/server.py:48-99 | a burst of acquires from connections that hold nothing, with other connections' commands interleaved in the order the lock admits them; characterised by `Protocol.BystandersDoNotMatter` |
| `Protocol.BystandersDoNotMatter` | src/server.py:48-99 | queries and unrecognised commands of other connections, wherever they fall in a burst of acquires, change neither the contenders' replies nor the final count |
| `ReadersGate.WriterCanEnter` | src/server.py:67 | the `resource_lock.acquire()` of an acquire (line 67) or a release (line 81) goes through only while the lock is free; characterised by `ReadersGate.RaisingQueryJamsGate` and `ReadersGate.JammedForever` |
| `ReadersGate.EnterRead` | src/server.py:50-53 | the reader entry: `read_count` goes up by one, and the first reader takes `resource_lock`, waiting while a writer holds it; characterised by `ReadersGate.RaisingQueryJamsGate` and `ReadersGate.JammedForever` |
| `ReadersGate.LeaveRead` | src/server.py:60-63 | the reader exit: `read_count` goes down by one, and the last reader frees `resource_lock`; characterised by `ReadersGate.CorrectedAdmitsAllWriters` |
| `ReadersGate.QueryAsWritten` | src/server.py:48-63 | the query branch as written: enter, send, leave, with the send at line 57 outside any `try`, so a send that raises skips the exit; characterised by `ReadersGate.RaisingQueryJamsGate` and `ReadersGate.JammedForever` |
| `ReadersGate.QueryCorrected` | src/server.py:48-63 | the corrected definition, not the code as written: the same branch with its exit in a `finally` clause, as lines 75-76 and 89-90 release the writers' lock; characterised by `ReadersGate.CorrectedAdmitsAllWriters` |
| `ReadersGate.ReplayGate` | src/server.py:48-90 | the threads' critical sections on the gate, one after another, with the query branch as written or corrected, counting the writers admitted; characterised by `ReadersGate.JammedForever` and `ReadersGate.CorrectedAdmitsAllWriters` |
| `ReadersGate.RaisingQueryJamsGate` | src/server.py:48-63 | a query whose send raises leaves one reader counted in and the resource lock taken, so no writer can enter |
| `ReadersGate.JammedForever` | src/server.py:48-90 | from a jammed gate, no history of later queries (raising or not) and writers ever admits a writer: every acquire and release blocks |
| `ReadersGate.CorrectedAdmitsAllWriters` | src/server.py:48-90 | with the query's exit in a `finally` clause, every history starting from an open gate ends with the gate open and admits every writer |
| `ParkingServer.Pool.constructor` | src/server.py:21-22 | the counter starts at the initial 10 spots |
| `ParkingServer.Session.constructor` | src/server.py:37 | a new session holds no spot and is connected |
| `ParkingServer.Session.Handle` | src/server.py:42-99 | handling one message changes the shared counter, `held`, the reply and the continue flag exactly as `Step` says; the session is closed exactly when the loop breaks |
| `ParkingServer.Session.Serve` | src/server.py:41-99 | the handler's loop over the messages that arrive leaves the counter, `held`, the replies sent and the number of messages read exactly as `Run` says |
| `ParkingServer.Server.Valid` | src/server.py:21-22 | the conservation law: free spots plus sessions holding a spot equals 10, so 0 ≤ free spots ≤ 10, and all 10 spots are free when no session holds one |
| `ParkingServer.Server.constructor` | src/server.py:21-22 | the server starts with 10 free spots, no sessions, and the conservation law holding |
| `ParkingServer.Server.Accept` | src/server.py:129-132 | a new connection is a fresh session on the shared pool that holds nothing; the law still holds and the set of holders is unchanged |
| `ParkingServer.Server.Deliver` | src/server.py:41-99 | one command of one session, applied atomically between other sessions' commands, behaves as `Step`, keeps the conservation law, and changes no other session's state |
| `ParkingServer.DroppedHolderKeepsSpot` | src/server.py:101-108 | a session that takes a spot and then disconnects without releasing leaves the count at 9 |
| `ParkingServer.AcquireReleaseRoundTrip` | src/server.py:48-95 | query `"10"`, acquire `"1"`, second acquire `"0"`, the other session's query `"9"`, release `"1"`, and then the other session's query `"10"` again |

## Left out

- Sockets: `recv`, `send` and `close`. A message is the string one `recv`
  returned, and a reply is the string handed to `send`. Splitting or merging
  of messages by the transport is not modelled, nor is the 1024-byte read
  size.
- UTF-8 decoding. Messages are modelled as strings. In the code, bytes that
  are not valid UTF-8 raise an exception that nothing catches. The `finally`
  block then closes the connection and the state is left as it was. The model
  has no such input.
- Transport errors (`ConnectionResetError`, `BrokenPipeError`). A reset
  during `recv` ends the session like an empty read. A failing `send` after
  an acquire or release keeps the counter change the command already made;
  `except ConnectionResetError` at line 101 catches only the reset, but
  both end the session. A failing `send` in the query branch is worse: that
  send at line 57 is not inside a `try`, so lines 60-63 never run.
  `read_count` stays at one or more and `resource_lock` is never released,
  so every later `pegar_vaga` and `liberar_vaga` of every session blocks for
  ever at line 67 or 81. The atomic-step model in `Protocol` and
  `ParkingServer` does not capture this deadlock: there every command goes
  ahead. `ReadersGate` exhibits it (see "## Findings").
- The readers-writers locks (`resource_lock`, `read_count_lock`,
  `read_count`) and the thread per connection. Every command is one atomic
  step, and an interleaving of sessions is a sequence of `Server.Deliver`
  calls. `ReadersGate` keeps only the gate's state, with critical sections
  one after another: it does not model overlapping readers, blocking and
  waking, or fairness.
- Logging with `print`, the accept loop, `iniciar_servidor` and `main`
  with the port taken from the environment. `Server.Accept` stands for one
  accepted connection.
- A compensating release on disconnect. The code does not do it, so the
  model does not either.
- src/cliente.py, the client driver with its retry and backoff loop, is not
  part of this model.

## Findings

| source | as written | input that shows it | evidently intended | confidence | as-written member | corrected member |
|---|---|---|---|---|---|---|
| src/server.py:48-63 | the query reply is sent between entering and leaving the readers' gate, outside any `try`, so an exception from `send` skips the exit | a `consultar_vaga` whose peer has reset the connection before the reply goes out (it closed with unread data, or with `SO_LINGER` 0), so `send` raises `ConnectionResetError` or `BrokenPipeError` (after a plain close the first `send` usually succeeds). After that failed send, one reader stays counted in, the resource lock stays taken, and every `pegar_vaga` and `liberar_vaga` blocks for ever | leave the gate in a `finally` clause, as the acquire and release branches release `resource_lock` at lines 75-76 and 89-90 | not executed | `ReadersGate.JammedForever` (with `ReadersGate.RaisingQueryJamsGate`) | `ReadersGate.CorrectedAdmitsAllWriters` |
