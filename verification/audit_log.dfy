/** pkg/audit/audit.go: the logger and its effect on the files of the audit directory.  Clocks and
    the outcome of every file operation are inputs. */
module AuditLog {
  import opened Json
  import opened Canonical
  import opened Encoder
  import opened AuditChain
  import opened LogLines

  /** A rotated file, audit-*.jsonl. */
  datatype File = File(name: string, data: string)

  /** How the write and flush of one line went: a failure leaves the first n bytes on disk. */
  datatype Io = Done | WriteFails(n: nat) | FlushFails(n: nat)

  datatype Env = Env(today: string, millis: string, renameOk: bool, openOk: bool, statOk: bool, io: Io, syncOk: bool)

  /** The directory (rotated files in the order they were made, and audit.jsonl) and the logger's
      fields.  stuck is the sticky error of bufio.Writer. */
  datatype Log = Log(
    rotated: seq<File>, active: Option<string>,
    open: bool, size: int, date: string, degraded: bool, stuck: bool, prev: Digest)

  const DEFAULT_MAX_SIZE := 50 * 1024 * 1024

  function Contents(active: Option<string>): string {
    match active
    case Some(data) => data
    case None => ""
  }

  predicate Exists(rotated: seq<File>, name: string) {
    exists f | f in rotated :: f.name == name
  }

  predicate Distinct(rotated: seq<File>) {
    forall i, j | 0 <= i < j < |rotated| :: rotated[i].name != rotated[j].name
  }

  function RotatedName(rotated: seq<File>, date: string, millis: string): string {
    if Exists(rotated, "audit-" + date + ".jsonl") then "audit-" + date + "-" + millis + ".jsonl"
    else "audit-" + date + ".jsonl"
  }

  /** os.Rename onto a rotated name: a file already there is replaced. */
  function Put(rotated: seq<File>, f: File): seq<File> {
    if rotated == [] then [f]
    else if rotated[0].name == f.name then Put(rotated[1..], f)
    else [rotated[0]] + Put(rotated[1..], f)
  }

  // ----- The steps as functions of the state -----

  ghost function OpenStep(c: Keyed, st: Log, env: Env): (Log, bool) {
    if !env.openOk then (st, false)
    else
      var data := Contents(st.active);
      if !env.statOk then (st.(active := Some(data), degraded := true), false)
      else
        var seed := SeedOf(c, Segments(data));
        (st.(active := Some(data), open := true, size := |data|, date := env.today, degraded := false, stuck := false,
             prev := if data != "" && seed.Some? then seed.value else st.prev), true)
  }

  ghost function RotateStep(c: Keyed, st: Log, env: Env): (Log, bool) {
    if !env.renameOk || st.active.None? then (st.(degraded := true, open := false), false)
    else
      var name := RotatedName(st.rotated, st.date, env.millis);
      var (st', ok) := OpenStep(c, st.(rotated := Put(st.rotated, File(name, st.active.value)), active := None), env);
      (if ok then st'.(prev := st.prev) else st', ok)
  }

  /** The bytes of one record and its digest.  A payload that is not an object is written as it is. */
  ghost function LineOf(c: Keyed, data: string, prev: Digest): (string, Option<Digest>) {
    match DecodeFirst(data)
    case Some(Obj(m)) => var (line, mac) := Embed(c, m, prev); (line, Some(mac))
    case _ => (data, None)
  }

  ghost function AppendStep(c: Keyed, st: Log, data: string, fsync: bool, env: Env): (Log, bool) {
    var (text, mac) := LineOf(c, data, st.prev);
    var line := text + "\n";
    if st.stuck then (st.(degraded := true), false)
    else
      var before := Contents(st.active);
      match env.io
      case WriteFails(n) =>
        (st.(active := Some(before + line[..if n < |line| then n else |line|]), degraded := true), false)
      case FlushFails(n) =>
        (st.(active := Some(before + line[..if n < |line| then n else |line|]), stuck := true), false)
      case Done =>
        var st' := st.(active := Some(before + line));
        if fsync && !env.syncOk then (st', false)
        else (st'.(size := st.size + |line|, prev := if mac.Some? then mac.value else st.prev), true)
  }

  predicate MustRotate(st: Log, max: int, env: Env) {
    env.today != st.date || st.size >= max
  }

  ghost function WriteStep(c: Keyed, max: int, st: Log, data: string, fsync: bool, env: Env): (Log, bool) {
    if st.degraded || !st.open then (st, false)
    else if MustRotate(st, max, env) then
      var (st', ok) := RotateStep(c, st, env);
      if ok then AppendStep(c, st', data, fsync, env) else (st'.(degraded := true), false)
    else AppendStep(c, st, data, fsync, env)
  }

  function CloseStep(st: Log): Log {
    st.(degraded := true, open := false)
  }

  /** A new process over the same directory. */
  ghost function StartStep(c: Keyed, st: Log, truncateOk: bool, env: Env): (Log, bool) {
    var data := match st.active case Some(d) => Some(Recover(d, truncateOk)) case None => None;
    var (st', ok) := OpenStep(c, Log(st.rotated, data, false, 0, "", false, false, c.genesis), env);
    (if ok then st' else st'.(degraded := true), ok)
  }

  // ----- embedHMAC -----

  /** embedHMAC; None where the payload is not an object.  On the text null the source writes into a
      nil map and panics, so callers must not pass it. */
  method EmbedHmac(c: Keyed, raw: string, prev: Digest) returns (r: Option<(string, Digest)>)
    requires DecodeFirst(raw) != Some(Null)
    ensures r.Some? ==> DecodeFirst(raw).Some? && DecodeFirst(raw).value.Obj?
                        && r.value == Embed(c, DecodeFirst(raw).value.fields, prev)
    ensures r.None? ==> !(DecodeFirst(raw).Some? && DecodeFirst(raw).value.Obj?)
  {
    hide DecodeFirst, Print, HexEncode;
    var v := DecodeFirst(raw);
    if v.None? || !v.value.Obj? {
      return None;
    }
    var m := v.value.fields;
    var canonical := CanonicalMarshal(Obj(m - {HMAC}));
    var mac := ComputeEntryHmac(c, prev, canonical);
    var out := CanonicalMarshal(Obj(m[HMAC := Str(HexEncode(mac))]));
    r := Some((out, mac));
  }

  // ----- The logger -----

  class Disk {
    var rotated: seq<File>
    var active: Option<string>

    constructor ()
      ensures rotated == [] && active == None
    {
      rotated, active := [], None;
    }
  }

  class Logger {
    const c: Keyed
    const maxSize: int
    const disk: Disk
    var open: bool
    var size: int
    var date: string
    var degraded: bool
    var stuck: bool
    var prev: Digest

    function State(): Log
      reads this, disk
    {
      Log(disk.rotated, disk.active, open, size, date, degraded, stuck, prev)
    }

    constructor (c: Keyed, maxSizeBytes: int, disk: Disk)
      ensures this.c == c && this.disk == disk
      ensures maxSize == if maxSizeBytes <= 0 then DEFAULT_MAX_SIZE else maxSizeBytes
      ensures State() == Log(disk.rotated, disk.active, false, 0, "", false, false, c.genesis)
    {
      this.c, this.disk := c, disk;
      maxSize := if maxSizeBytes <= 0 then DEFAULT_MAX_SIZE else maxSizeBytes;
      open, size, date, degraded, stuck, prev := false, 0, "", false, false, c.genesis;
    }

    /** The part of NewLogger that touches the directory. */
    method Start(truncateOk: bool, env: Env) returns (ok: bool)
      requires !open && size == 0 && date == "" && !degraded && !stuck && prev == c.genesis
      modifies this, disk
      ensures (State(), ok) == StartStep(c, old(State()), truncateOk, env)
    {
      hide SeedOf, Segments, Recover;
      if disk.active.Some? {
        var data := RecoverCorruption(disk.active.value, truncateOk);
        disk.active := Some(data);
      }
      ok := OpenCurrentFile(env);
      if !ok {
        degraded := true;
      }
    }

    method OpenCurrentFile(env: Env) returns (ok: bool)
      modifies this, disk
      ensures (State(), ok) == OpenStep(c, old(State()), env)
    {
      hide SeedOf, Segments;
      if !env.openOk {
        return false;
      }
      var data := Contents(disk.active);
      disk.active := Some(data);
      if !env.statOk {
        degraded := true;
        return false;
      }
      open, size, date, degraded, stuck := true, |data|, env.today, false, false;
      if |data| > 0 {
        var seed := ReadChainSeed(c, data);
        if seed.Some? {
          prev := seed.value;
        }
      }
      ok := true;
    }

    method Rotate(env: Env) returns (ok: bool)
      modifies this, disk
      ensures (State(), ok) == RotateStep(c, old(State()), env)
    {
      hide OpenStep;
      var chainSeed := prev;
      var name := RotatedName(disk.rotated, date, env.millis);
      if !env.renameOk || disk.active.None? {
        degraded, open := true, false;
        return false;
      }
      disk.rotated := Put(disk.rotated, File(name, disk.active.value));
      disk.active := None;
      ok := OpenCurrentFile(env);
      if !ok {
        return;
      }
      prev := chainSeed;
    }

    method WriteLine(data: string, fsync: bool, env: Env) returns (ok: bool)
      requires DecodeFirst(data) != Some(Null)
      modifies this, disk
      ensures (State(), ok) == WriteStep(c, maxSize, old(State()), data, fsync, env)
    {
      hide RotateStep, AppendStep, DecodeFirst;
      if degraded || !open {
        return false;
      }
      if env.today != date || size >= maxSize {
        var rotated := Rotate(env);
        if !rotated {
          degraded := true;
          return false;
        }
      }
      ok := Append(data, fsync, env);
    }

    /** The part of writeLine after rotation. */
    method Append(data: string, fsync: bool, env: Env) returns (ok: bool)
      requires DecodeFirst(data) != Some(Null)
      modifies this, disk
      ensures (State(), ok) == AppendStep(c, old(State()), data, fsync, env)
    {
      hide DecodeFirst, Embed;
      var embedded := EmbedHmac(c, data, prev);
      var out, mac := data, None;
      if embedded.Some? {
        out, mac := embedded.value.0, Some(embedded.value.1);
      }
      assert (out, mac) == LineOf(c, data, prev);
      var line := out + "\n";
      if stuck {
        degraded := true;
        return false;
      }
      var before := Contents(disk.active);
      match env.io {
        case WriteFails(n) =>
          disk.active := Some(before + line[..if n < |line| then n else |line|]);
          degraded := true;
          return false;
        case FlushFails(n) =>
          disk.active := Some(before + line[..if n < |line| then n else |line|]);
          stuck := true;
          return false;
        case Done =>
          disk.active := Some(before + line);
      }
      if fsync && !env.syncOk {
        return false;
      }
      size := size + |line|;
      if mac.Some? {
        prev := mac.value;
      }
      ok := true;
    }

    method Close()
      modifies this
      ensures State() == CloseStep(old(State()))
    {
      degraded := true;
      open := false;
    }
  }
}
