/** The vault inventory and the log of its movements: bars are taken in and transferred, and
    every change of place is to be written down.

    A transfer reads the bar, moves it, and writes the movement down, as three statements; the
    movement's origin is the vault that was read. Requests interleave between statements. */
module VaultLedger {
  import opened Wrappers

  type Serial = string

  type VaultId = nat

  datatype BarStatus = Available | Allocated | Retired

  datatype Bar = Bar(serial: Serial, vault: VaultId, weight: int, status: BarStatus)

  /** A movement without origin is an ingestion. */
  datatype Movement = Movement(serial: Serial, from: Option<VaultId>, to: VaultId)

  datatype RepoError = DuplicateBar | BarNotFound | BarAllocated

  // ------------------------------------------------------------------------ the statements

  predicate Known(bars: seq<Bar>, serial: Serial) {
    exists i | 0 <= i < |bars| :: bars[i].serial == serial
  }

  function Position(bars: seq<Bar>, serial: Serial): (p: Option<nat>)
    ensures p.Some? <==> Known(bars, serial)
    ensures p.Some? ==> p.value < |bars| && bars[p.value].serial == serial
  {
    if bars == [] then None
    else if bars[|bars| - 1].serial == serial then Some(|bars| - 1)
    else
      var p := Position(bars[..|bars| - 1], serial);
      assert p.None? ==> forall i | 0 <= i < |bars| - 1 :: bars[..|bars| - 1][i].serial == bars[i].serial;
      p
  }

  /** The insert: the serial is the primary key, and every bar comes in available. */
  function Ingested(bars: seq<Bar>, serial: Serial, vault: VaultId, weight: int): Result<seq<Bar>, RepoError> {
    if Known(bars, serial) then Err(DuplicateBar) else Ok(bars + [Bar(serial, vault, weight, Available)])
  }

  /** The conditional update, and the second look that tells its two failures apart. */
  function VaultUpdated(bars: seq<Bar>, serial: Serial, to: VaultId): Result<seq<Bar>, RepoError> {
    match Position(bars, serial)
    case None => Err(BarNotFound)
    case Some(i) => if bars[i].status.Available? then Ok(bars[i := bars[i].(vault := to)]) else Err(BarAllocated)
  }

  // --------------------------------------------------------------- interleaved requests

  /** Where a request stands between two statements. */
  datatype Phase = Looked(serial: Serial, from: VaultId, to: VaultId) | Moved(movement: Movement)
  {
    function Bar(): Serial { if Looked? then serial else movement.serial }
  }

  datatype World = World(bars: seq<Bar>, log: seq<Movement>, open: map<nat, Phase>)

  const START: World := World([], [], map[])

  /** A statement of request r that took effect. An unacknowledged one took effect too, but the
      handler was told it failed and stops. Other services change the status of bars. */
  datatype Step =
    | InsertBar(r: nat, serial: Serial, vault: VaultId, weight: int, acked: bool)
    | ReadBar(r: nat, serial: Serial, to: VaultId)
    | MoveBar(r: nat, acked: bool)
    | LogMovement(r: nat, stored: bool)
    | GiveUp(r: nat)
    | SetStatus(bar: nat, status: BarStatus)

  predicate Enabled(w: World, step: Step) {
    match step
    case InsertBar(r, _, _, _, _) => r !in w.open
    case ReadBar(r, _, _) => r !in w.open
    case MoveBar(r, _) => r in w.open && w.open[r].Looked?
    case LogMovement(r, _) => r in w.open && w.open[r].Moved?
    case GiveUp(r) => r in w.open && w.open[r].Looked?
    case SetStatus(i, _) => i < |w.bars|
  }

  function Next(w: World, step: Step): World {
    if !Enabled(w, step) then w
    else
      match step
      case InsertBar(r, serial, vault, weight, acked) =>
        (match Ingested(w.bars, serial, vault, weight)
         case Err(_) => w
         case Ok(bars) =>
           w.(bars := bars, open := if acked then w.open[r := Moved(Movement(serial, None, vault))] else w.open))
      case ReadBar(r, serial, to) =>
        (match Position(w.bars, serial)
         case None => w
         case Some(i) => w.(open := w.open[r := Looked(serial, w.bars[i].vault, to)]))
      case MoveBar(r, acked) =>
        var p := w.open[r];
        (match VaultUpdated(w.bars, p.serial, p.to)
         case Err(_) => w.(open := w.open - {r})
         case Ok(bars) =>
           w.(bars := bars,
              open := if acked then w.open[r := Moved(Movement(p.serial, Some(p.from), p.to))] else w.open - {r}))
      case LogMovement(r, stored) =>
        w.(log := if stored then w.log + [w.open[r].movement] else w.log, open := w.open - {r})
      case GiveUp(r) => w.(open := w.open - {r})
      case SetStatus(i, status) => w.(bars := w.bars[i := w.bars[i].(status := status)])
  }

  function After(w: World, steps: seq<Step>): World
    decreases |steps|
  {
    if steps == [] then w else After(Next(w, steps[0]), steps[1..])
  }

  // ------------------------------------------------------------------------- one request

  /** A transfer that nothing interrupts. */
  function Transferred(w: World, r: nat, serial: Serial, to: VaultId, acked: bool, stored: bool): World {
    Next(Next(Next(w, ReadBar(r, serial, to)), MoveBar(r, acked)), LogMovement(r, stored))
  }

  function TakenIn(w: World, r: nat, serial: Serial, vault: VaultId, weight: int, acked: bool, stored: bool): World {
    Next(Next(w, InsertBar(r, serial, vault, weight, acked)), LogMovement(r, stored))
  }

  datatype Response =
    | Invalid
    | VaultNotFound
    | NoSuchBar
    | Duplicate
    | IsAllocated
    | Internal
    | Created(serial: Serial)
    | Done(serial: Serial, from: VaultId, to: VaultId)

  /** What became of the statements of one request. */
  datatype Calls = Calls(vaultRead: bool, barRead: bool, landed: bool, acked: bool, existsRead: bool, stored: bool)

  class VaultService {
    const vaults: set<VaultId>
    var bars: seq<Bar>
    var log: seq<Movement>

    ghost function View(): World
      reads this
    {
      World(bars, log, map[])
    }

    constructor (vaults: set<VaultId>)
      ensures View() == START && this.vaults == vaults
    {
      this.vaults := vaults;
      bars, log := [], [];
    }

    /** A bar of the inventory with the serial, the one an update would move, if there is any. */
    method BySerial(serial: Serial) returns (bar: Option<Bar>)
      ensures bar.Some? <==> Known(bars, serial)
      ensures bar.Some? ==> bar.value in bars && bar.value.serial == serial
      ensures bar.Some? ==> bars[Position(bars, serial).value] == bar.value
    {
      var p := Position(bars, serial);
      bar := if p.None? then None else Some(bars[p.value]);
    }

    method Ingest(serial: Serial, vault: VaultId, weight: int) returns (e: Option<RepoError>)
      modifies this`bars
      ensures match Ingested(old(bars), serial, vault, weight)
              case Ok(b) => e.None? && bars == b
              case Err(x) => e == Some(x) && bars == old(bars)
    {
      if Known(bars, serial) {
        return Some(DuplicateBar);
      }
      bars := bars + [Bar(serial, vault, weight, Available)];
      e := None;
    }

    /** An error of the second look leaves `exists` false, so an allocated bar is then reported
        as missing. */
    method UpdateVault(serial: Serial, to: VaultId, existsRead: bool) returns (e: Option<RepoError>)
      modifies this`bars
      ensures match VaultUpdated(old(bars), serial, to)
              case Ok(b) => e.None? && bars == b
              case Err(x) => e == Some(if existsRead then x else BarNotFound) && bars == old(bars)
    {
      var p := Position(bars, serial);
      if p.Some? && bars[p.value].status.Available? {
        bars := bars[p.value := bars[p.value].(vault := to)];
        return None;
      }
      var exists' := existsRead && Known(bars, serial);
      e := Some(if exists' then BarAllocated else BarNotFound);
    }

    method IngestBar(serial: Serial, vault: Option<VaultId>, weight: Option<int>, calls: Calls) returns (resp: Response)
      requires calls.acked ==> calls.landed
      modifies this
      ensures var reached := serial != "" && vault.Some? && vault.value in vaults && calls.vaultRead
                             && weight.Some? && weight.value > 0 && calls.landed;
              && View() == (if reached
                            then TakenIn(old(View()), 0, serial, vault.value, weight.value, calls.acked, calls.stored)
                            else old(View()))
              && (resp == Created(serial) <==> reached && calls.acked && !Known(old(bars), serial))
              && (resp.Duplicate? <==> reached && calls.acked && Known(old(bars), serial))
      ensures resp.Invalid? <==> serial == "" || vault.None?
                                 || (calls.vaultRead && vault.value in vaults && (weight.None? || weight.value <= 0))
      ensures resp.VaultNotFound? <==> serial != "" && vault.Some? && calls.vaultRead && vault.value !in vaults
    {
      if serial == "" || vault.None? {
        return Invalid;
      }
      if !calls.vaultRead {
        return Internal;
      }
      if vault.value !in vaults {
        return VaultNotFound;
      }
      if weight.None? || weight.value <= 0 {
        return Invalid;
      }
      if !calls.landed {
        return Internal;
      }
      var e := Ingest(serial, vault.value, weight.value);
      if !calls.acked {
        return Internal;
      }
      if e.Some? {
        return Duplicate;
      }
      var m := Movement(serial, None, vault.value);
      if calls.stored {
        log := log + [m];
      }
      resp := Created(serial);
    }

    method TransferBar(serial: Serial, to: Option<VaultId>, calls: Calls) returns (resp: Response)
      requires calls.acked ==> calls.landed
      modifies this
      ensures var reached := to.Some? && to.value in vaults && calls.vaultRead && calls.barRead && calls.landed;
              && View() == (if reached then Transferred(old(View()), 0, serial, to.value, calls.acked, calls.stored)
                            else old(View()))
              && (resp.Done? <==> reached && calls.acked && VaultUpdated(old(bars), serial, to.value).Ok?)
              && (resp.Done? ==> resp == Done(serial, old(bars)[Position(old(bars), serial).value].vault, to.value))
              && (resp.IsAllocated? <==> reached && calls.acked && calls.existsRead
                                         && VaultUpdated(old(bars), serial, to.value) == Err(BarAllocated))
      ensures resp.Invalid? <==> to.None?
      ensures resp.VaultNotFound? <==> to.Some? && calls.vaultRead && to.value !in vaults
      ensures resp.NoSuchBar? <==> to.Some? && calls.vaultRead && to.value in vaults && calls.barRead
                                   && !Known(old(bars), serial)
    {
      if to.None? {
        return Invalid;
      }
      if !calls.vaultRead {
        return Internal;
      }
      if to.value !in vaults {
        return VaultNotFound;
      }
      if !calls.barRead {
        return Internal;
      }
      ghost var looked := Next(View(), ReadBar(0, serial, to.value));
      var bar := BySerial(serial);
      if bar.None? {
        return NoSuchBar;
      }
      assert looked == View().(open := map[0 := Looked(serial, bar.value.vault, to.value)]);
      if !calls.landed {
        return Internal;
      }
      var e := UpdateVault(serial, to.value, calls.existsRead);
      if !calls.acked {
        return Internal;
      }
      if e == Some(BarAllocated) {
        return IsAllocated;
      }
      if e.Some? {
        return Internal;
      }
      var m := Movement(serial, Some(bar.value.vault), to.value);
      if calls.stored {
        log := log + [m];
      }
      resp := Done(serial, bar.value.vault, to.value);
    }
  }

  // ------------------------------------------------------- what holds of any interleaving

  function TotalWeight(bars: seq<Bar>): int {
    if bars == [] then 0 else TotalWeight(bars[..|bars| - 1]) + bars[|bars| - 1].weight
  }

  function VaultWeight(bars: seq<Bar>, v: VaultId): int {
    if bars == [] then 0
    else VaultWeight(bars[..|bars| - 1], v) + if bars[|bars| - 1].vault == v then bars[|bars| - 1].weight else 0
  }

  lemma {:induction false} WeightUpdated(bars: seq<Bar>, i: nat, b: Bar)
    requires i < |bars| && b.weight == bars[i].weight
    ensures TotalWeight(bars[i := b]) == TotalWeight(bars)
    ensures forall v :: VaultWeight(bars[i := b], v)
                        == VaultWeight(bars, v) - (if bars[i].vault == v then b.weight else 0)
                           + if b.vault == v then b.weight else 0
  {
    var n := |bars| - 1;
    if i < n {
      WeightUpdated(bars[..n], i, b);
      assert bars[i := b][..n] == bars[..n][i := b];
    } else {
      assert bars[i := b][..n] == bars[..n];
    }
  }

  /** What the ingests among the steps brought in. */
  function Brought(w: World, steps: seq<Step>): int
    decreases |steps|
  {
    if steps == [] then 0
    else
      (if steps[0].InsertBar? && Enabled(w, steps[0]) && !Known(w.bars, steps[0].serial) then steps[0].weight else 0)
      + Brought(Next(w, steps[0]), steps[1..])
  }

  lemma StepWeight(w: World, step: Step)
    ensures TotalWeight(Next(w, step).bars)
            == TotalWeight(w.bars)
               + if step.InsertBar? && Enabled(w, step) && !Known(w.bars, step.serial) then step.weight else 0
  {
    match step
    case InsertBar(_, serial, vault, weight, _) =>
      assert (w.bars + [Bar(serial, vault, weight, Available)])[..|w.bars|] == w.bars;
    case MoveBar(r, _) =>
      if Enabled(w, step) && VaultUpdated(w.bars, w.open[r].serial, w.open[r].to).Ok? {
        var i := Position(w.bars, w.open[r].serial).value;
        WeightUpdated(w.bars, i, w.bars[i].(vault := w.open[r].to));
      }
    case SetStatus(i, status) =>
      if Enabled(w, step) {
        WeightUpdated(w.bars, i, w.bars[i].(status := status));
      }
    case _ =>
  }

  /** Whatever overlaps or fails, only ingests change the total weight held. */
  lemma {:induction false} WeightConserved(w: World, steps: seq<Step>)
    ensures TotalWeight(After(w, steps).bars) == TotalWeight(w.bars) + Brought(w, steps)
    decreases |steps|
  {
    if steps != [] {
      StepWeight(w, steps[0]);
      WeightConserved(Next(w, steps[0]), steps[1..]);
    }
  }

  /** A move takes one bar, which was available at that moment, and shifts exactly its weight
      between the two vaults; no other step moves a bar. */
  lemma OnlyAvailableBarsMove(w: World, step: Step, i: nat)
    requires i < |w.bars|
    ensures i < |Next(w, step).bars| && Next(w, step).bars[i].serial == w.bars[i].serial
    ensures Next(w, step).bars[i].vault != w.bars[i].vault ==>
              && step.MoveBar? && w.bars[i].status.Available?
              && forall v :: VaultWeight(Next(w, step).bars, v)
                             == VaultWeight(w.bars, v)
                                - (if w.bars[i].vault == v then w.bars[i].weight else 0)
                                + if Next(w, step).bars[i].vault == v then w.bars[i].weight else 0
  {
    if step.MoveBar? && Enabled(w, step) && VaultUpdated(w.bars, w.open[step.r].serial, w.open[step.r].to).Ok? {
      var p := Position(w.bars, w.open[step.r].serial).value;
      WeightUpdated(w.bars, p, w.bars[p].(vault := w.open[step.r].to));
    }
  }
}
