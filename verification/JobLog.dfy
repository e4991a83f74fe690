/**
 * The log of one job (ops/backend/scheduler/scheduler.go:35-80, 394-414, 482-499): a
 * bounded buffer whose overflow is appended to hourly files. A character of these
 * strings stands for one byte.
 */
module JobLog {
  import opened Decimal

  /** An hour key "2006010215", as the number it spells; see Decimal.PaddedOrder for its order. */
  type Hour = nat

  datatype LogState = LogState(
    log: string,
    archivedBytes: int,
    archivedByHour: map<Hour, string>,
    archivedHours: seq<Hour>)

  const EMPTY_LOG := LogState("", 0, map[], [])

  /** The contents of a job's hourly files. */
  type HourFiles = map<Hour, string>

  datatype Store = Store(state: LogState, files: HourFiles)

  const EMPTY_STORE := Store(EMPTY_LOG, map[])

  function PathOf(dir: string, hour: Hour): string
  {
    dir + "/" + Padded(hour, 10) + ".log"
  }

  /** A line as appendLog writes it. */
  function Terminated(line: string): string
  {
    if line != "" && line[|line| - 1] == '\n' then line else line + "\n"
  }

  /** How many bytes appendLogWithTrim takes off the front. */
  function OverflowSize(log: string, maxBytes: int): (n: nat)
    ensures n <= |log|
  {
    if maxBytes <= 0 || |log| <= maxBytes then 0 else |log| - maxBytes
  }

  /** Where sort.Strings puts a key that was appended to a list already in order. */
  function Position(hours: seq<Hour>, hour: Hour, n: nat): (k: nat)
    requires n <= |hours|
    ensures k <= n
  {
    if n == 0 || hours[n - 1] <= hour then n else Position(hours, hour, n - 1)
  }

  function InsertHour(hours: seq<Hour>, hour: Hour): seq<Hour>
  {
    var k := Position(hours, hour, |hours|);
    hours[..k] + [hour] + hours[k..]
  }

  function AddArchive(state: LogState, hour: Hour, path: string, bytes: int): LogState
  {
    var counted := state.(archivedBytes := state.archivedBytes + bytes);
    if hour in state.archivedByHour then counted
    else counted.(archivedByHour := state.archivedByHour[hour := path],
                  archivedHours := InsertHour(state.archivedHours, hour))
  }

  function FileText(files: HourFiles, hour: Hour): string
  {
    if hour in files then files[hour] else ""
  }

  function WriteChunk(files: HourFiles, hour: Hour, chunk: string): HourFiles
  {
    files[hour := FileText(files, hour) + chunk]
  }

  function Buffered(store: Store, log: string): Store
  {
    store.(state := store.state.(log := log))
  }

  function Chunked(store: Store, dir: string, hour: Hour, chunk: string): Store
  {
    Store(AddArchive(store.state, hour, PathOf(dir, hour), |chunk|), WriteChunk(store.files, hour, chunk))
  }

  /** appendJobLog up to the publication; `written` is whether the archive write succeeds. */
  function Append(store: Store, dir: string, line: string, maxBytes: int, hour: Hour, written: bool): Store
  {
    var log := store.state.log + Terminated(line);
    var n := OverflowSize(log, maxBytes);
    var trimmed := Buffered(store, log[n..]);
    if n == 0 || !written then trimmed else Chunked(trimmed, dir, hour, log[..n])
  }

  /** The path of the last archived hour. */
  function LatestFile(state: LogState): string
  {
    if state.archivedHours == [] then ""
    else
      var last := state.archivedHours[|state.archivedHours| - 1];
      if last in state.archivedByHour then state.archivedByHour[last] else ""
  }

  function Banner(bytes: int, latest: string): string
  {
    "[log-archive] earlier logs archived by hour: bytes=" + Render(bytes)
    + (if latest != "" then ", latest_file=" + latest else "") + "\n"
  }

  function LogText(state: LogState): string
  {
    if state.archivedBytes <= 0 then state.log
    else Banner(state.archivedBytes, LatestFile(state)) + state.log
  }

  // ------------------------------------------------------------ the archive

  /** The first n hourly files, one after the other. */
  function Concat(hours: seq<Hour>, files: HourFiles, n: nat): string
    requires n <= |hours|
  {
    if n == 0 then "" else Concat(hours, files, n - 1) + FileText(files, hours[n - 1])
  }

  function Archived(store: Store): string
  {
    Concat(store.state.archivedHours, store.files, |store.state.archivedHours|)
  }

  /** Everything the job still has of its log, oldest first. */
  function History(store: Store): string
  {
    Archived(store) + store.state.log
  }

  ghost predicate Increasing(hours: seq<Hour>)
  {
    forall i, j :: 0 <= i < j < |hours| ==> hours[i] < hours[j]
  }

  /** The hours list exactly the files there are. */
  ghost predicate Lists(hours: seq<Hour>, files: HourFiles)
  {
    && (forall i :: 0 <= i < |hours| ==> hours[i] in files)
    && (forall h :: h in files ==> exists i :: 0 <= i < |hours| && hours[i] == h)
  }

  function PathIndex(dir: string, files: HourFiles): map<Hour, string>
  {
    map h | h in files :: PathOf(dir, h)
  }

  lemma PathIndexWrite(dir: string, files: HourFiles, hour: Hour, chunk: string)
    ensures PathIndex(dir, WriteChunk(files, hour, chunk)) == PathIndex(dir, files)[hour := PathOf(dir, hour)]
    ensures hour in files ==> PathIndex(dir, WriteChunk(files, hour, chunk)) == PathIndex(dir, files)
  {
  }

  /** Index and files agree: the hours list the files in order, with their paths and total size. */
  ghost predicate StoreInv(store: Store, dir: string)
  {
    && Increasing(store.state.archivedHours)
    && Lists(store.state.archivedHours, store.files)
    && store.state.archivedByHour == PathIndex(dir, store.files)
    && store.state.archivedBytes == |Archived(store)|
  }

  lemma {:induction false} PositionMeaning(hours: seq<Hour>, hour: Hour, n: nat)
    requires n <= |hours|
    ensures forall i :: Position(hours, hour, n) <= i < n ==> hours[i] > hour
    ensures Position(hours, hour, n) > 0 ==> hours[Position(hours, hour, n) - 1] <= hour
  {
    if n > 0 && hours[n - 1] > hour { PositionMeaning(hours, hour, n - 1); }
  }

  lemma InsertHourAt(hours: seq<Hour>, hour: Hour, i: nat)
    requires i <= |hours|
    ensures |InsertHour(hours, hour)| == |hours| + 1
    ensures var k := Position(hours, hour, |hours|);
            InsertHour(hours, hour)[i] == if i < k then hours[i] else if i == k then hour else hours[i - 1]
  {
  }

  lemma InsertHourIncreasing(hours: seq<Hour>, hour: Hour)
    requires Increasing(hours) && hour !in hours
    ensures Increasing(InsertHour(hours, hour))
  {
    var k := Position(hours, hour, |hours|);
    PositionMeaning(hours, hour, |hours|);
    var ins := InsertHour(hours, hour);
    forall i, j | 0 <= i < j < |ins| ensures ins[i] < ins[j] {
      InsertHourAt(hours, hour, i);
      InsertHourAt(hours, hour, j);
      if k > 0 { assert hours[k - 1] < hour; }
    }
  }

  lemma InsertHourLists(hours: seq<Hour>, hour: Hour, chunk: string, files: HourFiles)
    requires Lists(hours, files)
    ensures Lists(InsertHour(hours, hour), WriteChunk(files, hour, chunk))
  {
    var k := Position(hours, hour, |hours|);
    var ins, files' := InsertHour(hours, hour), WriteChunk(files, hour, chunk);
    forall h | h in files' ensures exists i :: 0 <= i < |ins| && ins[i] == h {
      if h == hour {
        assert ins[k] == h;
      } else {
        var i :| 0 <= i < |hours| && hours[i] == h;
        assert ins[if i < k then i else i + 1] == h;
      }
    }
  }

  /** Files of hours outside the first n do not matter. */
  lemma {:induction false} ConcatFrame(hours: seq<Hour>, hours': seq<Hour>, files: HourFiles, files': HourFiles, n: nat)
    requires n <= |hours| && n <= |hours'|
    requires forall i :: 0 <= i < n ==> hours[i] == hours'[i] && FileText(files, hours[i]) == FileText(files', hours[i])
    ensures Concat(hours, files, n) == Concat(hours', files', n)
  {
    if n > 0 { ConcatFrame(hours, hours', files, files', n - 1); }
  }

  lemma {:induction false} ConcatInsertSize(hours: seq<Hour>, hour: Hour, files: HourFiles, n: nat)
    requires Position(hours, hour, |hours|) <= n <= |hours|
    ensures |Concat(InsertHour(hours, hour), files, n + 1)| == |Concat(hours, files, n)| + |FileText(files, hour)|
  {
    var k := Position(hours, hour, |hours|);
    var ins := InsertHour(hours, hour);
    if n == k {
      ConcatFrame(ins, hours, files, files, k);
      assert ins[k] == hour;
    } else {
      ConcatInsertSize(hours, hour, files, n - 1);
      assert ins[n] == hours[n - 1];
    }
  }

  lemma {:induction false} ConcatGrow(hours: seq<Hour>, i: nat, chunk: string, files: HourFiles, n: nat)
    requires Increasing(hours) && i < n <= |hours|
    ensures |Concat(hours, WriteChunk(files, hours[i], chunk), n)| == |Concat(hours, files, n)| + |chunk|
    ensures i == n - 1 ==> Concat(hours, WriteChunk(files, hours[i], chunk), n) == Concat(hours, files, n) + chunk
  {
    if i == n - 1 {
      ConcatFrame(hours, hours, files, WriteChunk(files, hours[i], chunk), n - 1);
    } else {
      ConcatGrow(hours, i, chunk, files, n - 1);
    }
  }

  /** The hour keeps the archive in clock order: no archived hour is later. */
  ghost predicate NotBefore(hours: seq<Hour>, hour: Hour)
  {
    forall i :: 0 <= i < |hours| ==> hours[i] <= hour
  }

  lemma ChunkOldHour(store: Store, dir: string, i: nat, chunk: string)
    requires StoreInv(store, dir) && i < |store.state.archivedHours|
    ensures var hour := store.state.archivedHours[i];
            var after := Chunked(store, dir, hour, chunk);
            && StoreInv(after, dir)
            && after.state.archivedHours == store.state.archivedHours
            && (NotBefore(store.state.archivedHours, hour) ==> Archived(after) == Archived(store) + chunk)
  {
    var hours := store.state.archivedHours;
    ConcatGrow(hours, i, chunk, store.files, |hours|);
    PathIndexWrite(dir, store.files, hours[i], chunk);
    assert hours[i] in store.files;
    if NotBefore(hours, hours[i]) { assert i == |hours| - 1; }
    assert WriteChunk(store.files, hours[i], chunk).Keys == store.files.Keys;
  }

  /** A new file adds its chunk to the archive, wherever it goes. */
  lemma NewFileSize(hours: seq<Hour>, hour: Hour, chunk: string, files: HourFiles)
    requires Lists(hours, files) && hour !in files
    ensures |InsertHour(hours, hour)| == |hours| + 1
    ensures |Concat(InsertHour(hours, hour), WriteChunk(files, hour, chunk), |hours| + 1)|
            == |Concat(hours, files, |hours|)| + |chunk|
  {
    var files' := WriteChunk(files, hour, chunk);
    ConcatFrame(hours, hours, files, files', |hours|);
    ConcatInsertSize(hours, hour, files', |hours|);
    InsertHourAt(hours, hour, |hours|);
    assert FileText(files', hour) == "" + chunk == chunk;
  }

  lemma InsertAtEnd(hours: seq<Hour>, hour: Hour)
    requires NotBefore(hours, hour)
    ensures InsertHour(hours, hour) == hours + [hour]
  {
    assert Position(hours, hour, |hours|) == |hours|;
  }

  lemma ConcatNext(hours: seq<Hour>, hour: Hour, files: HourFiles)
    ensures Concat(hours + [hour], files, |hours| + 1) == Concat(hours + [hour], files, |hours|) + FileText(files, hour)
  {
    assert (hours + [hour])[|hours|] == hour;
  }

  lemma NewFileText(files: HourFiles, hour: Hour, chunk: string)
    requires hour !in files
    ensures FileText(WriteChunk(files, hour, chunk), hour) == chunk
    ensures forall h :: h != hour ==> FileText(WriteChunk(files, hour, chunk), h) == FileText(files, h)
  {
    assert "" + chunk == chunk;
  }

  lemma NewFileAtEnd(hours: seq<Hour>, hour: Hour, chunk: string, files: HourFiles)
    requires Lists(hours, files) && hour !in files && NotBefore(hours, hour)
    ensures InsertHour(hours, hour) == hours + [hour]
    ensures Concat(hours + [hour], WriteChunk(files, hour, chunk), |hours| + 1) == Concat(hours, files, |hours|) + chunk
  {
    hide Concat, InsertHour, FileText, WriteChunk;
    var files' := WriteChunk(files, hour, chunk);
    InsertAtEnd(hours, hour);
    NewFileText(files, hour, chunk);
    ConcatFrame(hours + [hour], hours, files', files, |hours|);
    ConcatNext(hours, hour, files');
  }

  lemma ChunkNewHourState(store: Store, dir: string, hour: Hour, chunk: string)
    requires hour !in store.files && store.state.archivedByHour == PathIndex(dir, store.files)
    ensures var after := Chunked(store, dir, hour, chunk);
            && after.files == WriteChunk(store.files, hour, chunk)
            && after.state.archivedHours == InsertHour(store.state.archivedHours, hour)
            && after.state.archivedBytes == store.state.archivedBytes + |chunk|
            && after.state.archivedByHour == PathIndex(dir, after.files)
  {
    PathIndexWrite(dir, store.files, hour, chunk);
  }

  lemma NewHourKeepsIndex(hours: seq<Hour>, hour: Hour, chunk: string, files: HourFiles)
    requires Increasing(hours) && Lists(hours, files) && hour !in files
    ensures var hours', files' := InsertHour(hours, hour), WriteChunk(files, hour, chunk);
            && Increasing(hours') && Lists(hours', files')
            && |Concat(hours', files', |hours'|)| == |Concat(hours, files, |hours|)| + |chunk|
  {
    assert hour !in hours;
    InsertHourIncreasing(hours, hour);
    InsertHourLists(hours, hour, chunk, files);
    NewFileSize(hours, hour, chunk, files);
  }

  lemma ChunkNewHour(store: Store, dir: string, hour: Hour, chunk: string)
    requires StoreInv(store, dir) && hour !in store.files
    ensures StoreInv(Chunked(store, dir, hour, chunk), dir)
  {
    ChunkNewHourState(store, dir, hour, chunk);
    NewHourKeepsIndex(store.state.archivedHours, hour, chunk, store.files);
  }

  /** Archiving one chunk: the archive grows by the chunk, at its end when the clock has not gone back. */
  lemma ArchiveChunk(store: Store, dir: string, hour: Hour, chunk: string)
    requires StoreInv(store, dir)
    ensures var after := Chunked(store, dir, hour, chunk);
            && StoreInv(after, dir)
            && after.state.archivedBytes == store.state.archivedBytes + |chunk|
            && (NotBefore(store.state.archivedHours, hour) ==>
                  Archived(after) == Archived(store) + chunk && NotBefore(after.state.archivedHours, hour))
  {
    if hour in store.files {
      var i :| 0 <= i < |store.state.archivedHours| && store.state.archivedHours[i] == hour;
      ChunkOldHour(store, dir, i, chunk);
    } else {
      ChunkNewHour(store, dir, hour, chunk);
      if NotBefore(store.state.archivedHours, hour) {
        NewFileAtEnd(store.state.archivedHours, hour, chunk, store.files);
      }
    }
  }

  // ------------------------------------------------------------ one append

  function Lost(store: Store, line: string, maxBytes: int, written: bool): nat
  {
    if written then 0 else OverflowSize(store.state.log + Terminated(line), maxBytes)
  }

  lemma BufferedKeepsArchive(store: Store, dir: string, log: string)
    requires StoreInv(store, dir)
    ensures StoreInv(Buffered(store, log), dir) && Archived(Buffered(store, log)) == Archived(store)
  {
  }

  lemma JoinedChunk(archived: string, buffer: string, line: string, n: nat)
    requires n <= |buffer + line|
    ensures archived + (buffer + line)[..n] + (buffer + line)[n..] == archived + buffer + line
  {
    assert (buffer + line)[..n] + (buffer + line)[n..] == buffer + line;
  }

  lemma AppendStep(store: Store, dir: string, line: string, maxBytes: int, hour: Hour, written: bool)
    requires StoreInv(store, dir)
    ensures var after := Append(store, dir, line, maxBytes, hour, written);
            && StoreInv(after, dir)
            && (maxBytes > 0 ==> |after.state.log| <= maxBytes)
            && |History(after)| + Lost(store, line, maxBytes, written) == |History(store)| + |Terminated(line)|
            && (written && NotBefore(store.state.archivedHours, hour) ==>
                  History(after) == History(store) + Terminated(line) && NotBefore(after.state.archivedHours, hour))
  {
    var log := store.state.log + Terminated(line);
    var n := OverflowSize(log, maxBytes);
    BufferedKeepsArchive(store, dir, log[n..]);
    JoinedChunk(Archived(store), store.state.log, Terminated(line), n);
    if n > 0 && written {
      ArchiveChunk(Buffered(store, log[n..]), dir, hour, log[..n]);
    }
  }

  /**
   * What one append does, to the byte: the line gets a newline unless it ends in one; the
   * buffer keeps the last maxBytes bytes, all of them when maxBytes is not positive; what
   * went off its front is appended to the file of the hour, if that write succeeds.
   */
  lemma AppendExact(store: Store, dir: string, line: string, maxBytes: int, hour: Hour, written: bool)
    ensures var after := Append(store, dir, line, maxBytes, hour, written);
            var log := store.state.log + (if line != "" && line[|line| - 1] == '\n' then line else line + ['\n']);
            var n := if maxBytes > 0 && |log| > maxBytes then |log| - maxBytes else 0;
            && after.state.log == log[n..]
            && (n == 0 || !written ==> after.files == store.files && after.state.(log := store.state.log) == store.state)
            && (n > 0 && written ==>
                  && hour in after.files
                  && after.files[hour] == (if hour in store.files then store.files[hour] else "") + log[..n]
                  && after.files - {hour} == store.files - {hour}
                  && after.state.archivedBytes == store.state.archivedBytes + n)
  {
  }

  /** The hour's file has the hour's ten digits for its name, so different hours have different files. */
  lemma PathsDiffer(dir: string, g: Hour, h: Hour)
    requires g < 10_000_000_000 && h < 10_000_000_000
    ensures PathOf(dir, h)[|dir| + 1..|dir| + 11] == Padded(h, 10) && Value(Padded(h, 10)) == h
    ensures PathOf(dir, g) == PathOf(dir, h) ==> g == h
  {
    assert Pow10(10) == 10_000_000_000;
    PaddedReadsBack(g, 10);
    PaddedReadsBack(h, 10);
    assert PathOf(dir, g)[|dir| + 1..|dir| + 11] == Padded(g, 10);
  }

  /**
   * What a client is shown: the buffer; and before it, once anything was archived, how
   * many bytes the hourly files hold and which of them is the latest.
   */
  lemma LogTextMeaning(store: Store, dir: string) returns (latest: Hour)
    requires StoreInv(store, dir)
    ensures |Archived(store)| == 0 ==> LogText(store.state) == store.state.log
    ensures |Archived(store)| > 0 ==>
              && latest in store.files && (forall h :: h in store.files ==> h <= latest)
              && LogText(store.state) ==
                 "[log-archive] earlier logs archived by hour: bytes=" + Render(|Archived(store)|)
                 + ", latest_file=" + dir + "/" + Padded(latest, 10) + ".log" + "\n" + store.state.log
  {
    hide Padded, Render;
    latest := 0;
    var hours := store.state.archivedHours;
    if |Archived(store)| > 0 {
      assert hours != [];
      latest := hours[|hours| - 1];
      var bytes := "[log-archive] earlier logs archived by hour: bytes=" + Render(|Archived(store)|);
      assert LatestFile(store.state) == PathOf(dir, latest) != "";
      JoinedBanner(bytes, dir, "/", Padded(latest, 10), ".log", store.state.log);
    }
  }

  lemma JoinedBanner(bytes: string, dir: string, slash: string, name: string, suffix: string, log: string)
    ensures bytes + (", latest_file=" + (dir + slash + name + suffix)) + "\n" + log
            == bytes + ", latest_file=" + dir + slash + name + suffix + "\n" + log
  {
  }

  // ------------------------------------------------------------ runs

  /** One appendJobLog call: its line, the hour of its clock reading, and the fate of its archive write. */
  datatype Entry = Entry(line: string, hour: Hour, written: bool)

  /** The store after the first n calls. */
  function AppendAll(store: Store, dir: string, maxBytes: int, entries: seq<Entry>, n: nat): Store
    requires n <= |entries|
  {
    if n == 0 then store
    else
      var e := entries[n - 1];
      Append(AppendAll(store, dir, maxBytes, entries, n - 1), dir, e.line, maxBytes, e.hour, e.written)
  }

  function AllLines(entries: seq<Entry>, n: nat): string
    requires n <= |entries|
  {
    if n == 0 then "" else AllLines(entries, n - 1) + Terminated(entries[n - 1].line)
  }

  ghost predicate AllWritten(entries: seq<Entry>)
  {
    forall i :: 0 <= i < |entries| ==> entries[i].written
  }

  function LostBytes(store: Store, dir: string, maxBytes: int, entries: seq<Entry>, n: nat): nat
    requires n <= |entries|
  {
    if n == 0 then 0
    else
      LostBytes(store, dir, maxBytes, entries, n - 1)
      + Lost(AppendAll(store, dir, maxBytes, entries, n - 1), entries[n - 1].line, maxBytes, entries[n - 1].written)
  }

  /**
   * Accounting, for every run: the index describes the files, the buffer is within its
   * bound, and archived, buffered and lost bytes add up to what was appended; bytes are
   * lost only in failed archive writes.
   */
  lemma {:induction false} LogAccounting(store: Store, dir: string, maxBytes: int, entries: seq<Entry>, n: nat)
    requires StoreInv(store, dir) && (maxBytes > 0 ==> |store.state.log| <= maxBytes) && n <= |entries|
    ensures var after := AppendAll(store, dir, maxBytes, entries, n);
            && StoreInv(after, dir)
            && (maxBytes > 0 ==> |after.state.log| <= maxBytes)
            && after.state.archivedBytes + |after.state.log| + LostBytes(store, dir, maxBytes, entries, n)
               == |History(store)| + |AllLines(entries, n)|
            && (AllWritten(entries) ==> LostBytes(store, dir, maxBytes, entries, n) == 0)
  {
    if n > 0 {
      var e := entries[n - 1];
      LogAccounting(store, dir, maxBytes, entries, n - 1);
      AppendStep(AppendAll(store, dir, maxBytes, entries, n - 1), dir, e.line, maxBytes, e.hour, e.written);
    }
  }

  /** The clock of a run never goes back, and starts no earlier than the archive. */
  ghost predicate SteadyClock(store: Store, entries: seq<Entry>)
  {
    && (forall i, j :: 0 <= i < j < |entries| ==> entries[i].hour <= entries[j].hour)
    && (entries != [] ==> NotBefore(store.state.archivedHours, entries[0].hour))
  }

  lemma NextEntryInOrder(store: Store, entries: seq<Entry>, n: nat, hours: seq<Hour>)
    requires SteadyClock(store, entries) && n < |entries|
    requires if n == 0 then hours == store.state.archivedHours else NotBefore(hours, entries[n - 1].hour)
    ensures NotBefore(hours, entries[n].hour)
  {
    if n > 0 { assert entries[n - 1].hour <= entries[n].hour; }
  }

  lemma ConservationStep(before: Store, dir: string, maxBytes: int, e: Entry, start: string, lines: string)
    requires StoreInv(before, dir) && NotBefore(before.state.archivedHours, e.hour) && e.written
    requires History(before) == start + lines
    ensures var after := Append(before, dir, e.line, maxBytes, e.hour, e.written);
            && StoreInv(after, dir)
            && NotBefore(after.state.archivedHours, e.hour)
            && History(after) == start + (lines + Terminated(e.line))
  {
    AppendStep(before, dir, e.line, maxBytes, e.hour, e.written);
    assert start + lines + Terminated(e.line) == start + (lines + Terminated(e.line));
  }

  /**
   * Conservation: with successful archive writes and a clock that does not go back, the
   * hourly files in archivedHours order followed by the buffer are exactly everything
   * appended, in order.
   */
  lemma {:induction false} LogConservation(store: Store, dir: string, maxBytes: int, entries: seq<Entry>, n: nat)
    requires StoreInv(store, dir) && SteadyClock(store, entries) && AllWritten(entries) && n <= |entries|
    ensures var after := AppendAll(store, dir, maxBytes, entries, n);
            && StoreInv(after, dir)
            && History(after) == History(store) + AllLines(entries, n)
            && (n > 0 ==> NotBefore(after.state.archivedHours, entries[n - 1].hour))
  {
    if n == 0 {
      assert History(store) + "" == History(store);
    } else {
      LogConservation(store, dir, maxBytes, entries, n - 1);
      NextEntryInOrder(store, entries, n - 1, AppendAll(store, dir, maxBytes, entries, n - 1).state.archivedHours);
      ConservationStep(AppendAll(store, dir, maxBytes, entries, n - 1), dir, maxBytes, entries[n - 1],
                       History(store), AllLines(entries, n - 1));
    }
  }

  const FIRST_CHUNK := Store(LogState("\n", 1, map[11 := PathOf("d", 11)], [11]), map[11 := "b"])

  lemma FirstAppend()
    ensures Append(EMPTY_STORE, "d", "b", 1, 11, true) == FIRST_CHUNK
  {
    assert "" + Terminated("b") == "b\n";
    assert "b\n"[..1] == "b" && "b\n"[1..] == "\n";
    assert InsertHour([], 11) == [11];
    assert "" + "b" == "b";
    assert WriteChunk(map[], 11, "b") == map[11 := "b"];
  }

  lemma SecondAppend()
    ensures var after := Append(FIRST_CHUNK, "d", "a", 1, 10, true);
            after.state.archivedHours == [10, 11] && after.state.log == "\n" && after.files == map[11 := "b", 10 := "\na"]
  {
    assert InsertHour([11], 10) == [10, 11];
    assert "" + "\na" == "\na";
    assert "\n" + Terminated("a") == "\na\n";
    assert "\na\n"[..2] == "\na" && "\na\n"[2..] == "\n";
  }

  /** A clock that goes back an hour between two overflows puts the later chunk first. */
  lemma BackwardClockReorders()
    ensures var entries := [Entry("b", 11, true), Entry("a", 10, true)];
            && History(AppendAll(EMPTY_STORE, "d", 1, entries, 2)) == "\nab\n"
            && AllLines(entries, 2) == "b\na\n"
  {
    hide Append, PathOf;
    var entries := [Entry("b", 11, true), Entry("a", 10, true)];
    FirstAppend();
    SecondAppend();
    assert AppendAll(EMPTY_STORE, "d", 1, entries, 1) == FIRST_CHUNK;
    var after := Append(FIRST_CHUNK, "d", "a", 1, 10, true);
    assert AppendAll(EMPTY_STORE, "d", 1, entries, 2) == after;
    assert Concat([10, 11], after.files, 1) == "\na";
    assert Concat([10, 11], after.files, 2) == "\nab";
    assert AllLines(entries, 1) == "b\n";
  }
}
