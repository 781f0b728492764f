/** Publication into a destination directory by atomic no-replace steps. */
module Publication {
  import opened Prelude
  import opened PortableNames

  type Content = seq<Byte>

  /** Which of the fallible calls around the no-replace step fails in one attempt. */
  datatype Fault = NoFault | BeforeStep | AfterStep

  datatype Attempt = Published | Taken | Failed(created: bool)

  datatype PublishError = BadName | Io

  /** `finalize_payload`: a hard link for a file, an exclusive rename for a folder. */
  function FinalizePayload(names: map<string, Content>, name: string, payload: Content,
                           kind: ContentKind, fault: Fault): (map<string, Content>, Attempt)
  {
    if fault == BeforeStep then (names, Failed(false))
    else if name in names then (names, Taken)
    else
      // Only a file has a second call: removing the staged link.
      (names[name := payload], if fault == AfterStep && kind == File then Failed(true) else Published)
  }

  /** The name tried at each index; the last resort stands one past the last index. */
  type Naming = nat -> Option<string>

  function CollisionNaming(root: string, kind: ContentKind, uuid: string): Naming {
    (index: nat) => if index <= LAST_COLLISION_INDEX then CollisionCandidate(root, kind, index)
             else ComponentWithSuffix(root, "." + uuid)
  }

  ghost predicate Extends(before: map<string, Content>, after: map<string, Content>) {
    forall n :: n in before ==> n in after && after[n] == before[n]
  }

  ghost predicate TakenUpTo(names: map<string, Content>, naming: Naming, index: nat) {
    forall j :: 1 <= j < index ==> naming(j).Some? && naming(j).value in names
  }

  /** Every index up to the last one has a name, so the search is never cut short. */
  ghost predicate NamesAll(naming: Naming) {
    forall j :: 1 <= j <= LAST_COLLISION_INDEX ==> naming(j).Some?
  }

  ghost predicate SomeFree(names: map<string, Content>, naming: Naming) {
    exists j :: 1 <= j <= LAST_COLLISION_INDEX && naming(j).Some? && naming(j).value !in names
  }

  /** The search reaches this index: every earlier name is taken, and no earlier attempt fails. */
  ghost predicate Reaches(names: map<string, Content>, naming: Naming, faults: nat -> Fault, index: nat) {
    && 1 <= index <= 10000 && TakenUpTo(names, naming, index)
    && forall j :: 1 <= j < index ==> faults(j) != BeforeStep
  }

  /** The search reaches a free name, links the file there, and fails to remove the staged link. */
  ghost predicate FailsAfterLinking(names: map<string, Content>, naming: Naming, kind: ContentKind,
                                    faults: nat -> Fault)
  {
    kind == File && exists i :: Reaches(names, naming, faults, i)
                                && naming(i).Some? && naming(i).value !in names && faults(i) == AfterStep
  }

  /** The search reaches a free name and nothing goes wrong there; renaming a folder has no second call. */
  ghost predicate Publishes(names: map<string, Content>, naming: Naming, kind: ContentKind, faults: nat -> Fault) {
    exists i :: Reaches(names, naming, faults, i) && naming(i).Some? && naming(i).value !in names
                && (faults(i) == NoFault || (faults(i) == AfterStep && kind != File))
  }

  class Directory {
    var names: map<string, Content>

    /**
     * `finalize_payload_without_overwrite`, with `faults(i)` going wrong at the i-th attempt. A lone
     * publisher takes the least free candidate, or the last resort when none is free; whatever
     * happens, the names that were there stay as they were and at most one is added. A failure leaves
     * a new name behind exactly when a file is linked and its staged link then cannot be removed.
     */
    method FinalizeWithoutOverwrite(payload: Content, naming: Naming, kind: ContentKind, faults: nat -> Fault)
      returns (r: Result<string, PublishError>)
      modifies this
      ensures r.Success? ==> r.value !in old(names) && names == old(names)[r.value := payload]
      ensures r.Success? ==> (exists i ::
                1 <= i <= LAST_COLLISION_INDEX + 1 && TakenUpTo(old(names), naming, i) && naming(i) == Some(r.value))
      ensures r.Failure? ==>
                || names == old(names)
                || (kind == File && exists n :: n !in old(names) && names == old(names)[n := payload])
      ensures r.Success? <==> Publishes(old(names), naming, kind, faults)
      ensures r.Failure? && names != old(names) <==> FailsAfterLinking(old(names), naming, kind, faults)
      ensures NamesAll(naming) && SomeFree(old(names), naming) && (forall i :: faults(i) == NoFault)
              ==> r.Success?
    {
      var index := 1;
      while index <= LAST_COLLISION_INDEX
        invariant 1 <= index <= LAST_COLLISION_INDEX + 1
        invariant names == old(names) && Reaches(names, naming, faults, index)
      {
        var candidate := naming(index);
        if candidate.None? {
          return Failure(BadName);
        }
        var (after, attempt) := FinalizePayload(names, candidate.value, payload, kind, faults(index));
        names := after;
        match attempt {
          case Published => return Success(candidate.value);
          case Failed(_) => return Failure(Io);
          case Taken =>
        }
        index := index + 1;
      }
      var last := naming(index);
      if last.None? { return Failure(BadName); }
      var (after, attempt) := FinalizePayload(names, last.value, payload, kind, faults(index));
      names := after;
      r := if attempt == Published then Success(last.value) else Failure(Io);
    }
  }

  /** Such a failure on an empty directory: the first name is linked, and removing the staged link fails. */
  lemma FailureCanLeaveAName(root: string, uuid: string, faults: nat -> Fault)
    requires ValidComponent(root) && faults(1) == AfterStep
    ensures FailsAfterLinking(map[], CollisionNaming(root, File, uuid), File, faults)
  {
    var naming := CollisionNaming(root, File, uuid);
    CollisionCandidatesAreValid(root, File, 1);
    hide ValidComponent, CollisionCandidate;
    var nothing: map<string, Content> := map[];
    assert Reaches(nothing, naming, faults, 1) && naming(1).Some? && naming(1).value !in nothing;
  }

  /** A portable root is never refused a candidate, so only faults and a full directory stop it. */
  lemma PortableRootsAreAlwaysNamed(root: string, kind: ContentKind, uuid: string)
    requires ValidComponent(root)
    ensures NamesAll(CollisionNaming(root, kind, uuid))
    ensures forall j :: 1 <= j <= LAST_COLLISION_INDEX ==>
              ValidComponent(CollisionNaming(root, kind, uuid)(j).value)
  {
    forall j | 1 <= j <= LAST_COLLISION_INDEX
      ensures CollisionNaming(root, kind, uuid)(j).Some?
      ensures ValidComponent(CollisionNaming(root, kind, uuid)(j).value)
    {
      CollisionCandidatesAreValid(root, kind, j);
    }
  }

  // ----- publishers interleaved step by step -----

  datatype Phase = Trying(index: nat) | Done(name: string) | Stopped(linked: Option<string>)

  datatype Publisher = Publisher(naming: Naming, kind: ContentKind, payload: Content, phase: Phase)
  {
    /** The name this publisher has created, whether or not it then reported success. */
    function Created(): Option<string> {
      match phase
      case Trying(_) => None
      case Done(name) => Some(name)
      case Stopped(linked) => linked
    }
  }

  datatype World = World(names: map<string, Content>, publishers: seq<Publisher>)

  /** One publisher makes one attempt. */
  datatype Turn = Turn(who: nat, fault: Fault)

  function Attempted(index: nat, name: string, attempt: Attempt): Phase {
    match attempt
    case Published => Done(name)
    case Failed(created) => Stopped(if created then Some(name) else None)
    case Taken => if index <= LAST_COLLISION_INDEX then Trying(index + 1) else Stopped(None)
  }

  function Next(w: World, turn: Turn): World {
    if turn.who >= |w.publishers| || !w.publishers[turn.who].phase.Trying? then w
    else
      var p := w.publishers[turn.who];
      var candidate := p.naming(p.phase.index);
      if candidate.None? then w.(publishers := w.publishers[turn.who := p.(phase := Stopped(None))])
      else
        var (names, attempt) := FinalizePayload(w.names, candidate.value, p.payload, p.kind, turn.fault);
        var moved := p.(phase := Attempted(p.phase.index, candidate.value, attempt));
        World(names, w.publishers[turn.who := moved])
  }

  function After(w: World, turns: seq<Turn>): World {
    if turns == [] then w else Next(After(w, turns[..|turns| - 1]), turns[|turns| - 1])
  }

  /** Between two moments nothing was lost, and every new name is owned by one publisher. */
  ghost predicate OnlyAdded(before: map<string, Content>, w: World) {
    && Extends(before, w.names)
    && (forall i :: 0 <= i < |w.publishers| && w.publishers[i].Created().Some? ==>
          var n := w.publishers[i].Created().value;
          n !in before && n in w.names && w.names[n] == w.publishers[i].payload)
    && (forall i, j :: 0 <= i < j < |w.publishers| && w.publishers[i].Created().Some? ==>
          w.publishers[i].Created() != w.publishers[j].Created())
    && (forall n :: n in w.names && n !in before ==>
          exists i :: 0 <= i < |w.publishers| && w.publishers[i].Created() == Some(n))
  }

  ghost predicate Fresh(w: World) {
    forall i :: 0 <= i < |w.publishers| ==> w.publishers[i].phase == Trying(1)
  }

  /** One turn changes nothing but its own publisher, and creates a name only where none was. */
  lemma TurnShape(w: World, turn: Turn)
    ensures var v := Next(w, turn);
      && |v.publishers| == |w.publishers|
      && (forall i :: 0 <= i < |w.publishers| ==> v.publishers[i].payload == w.publishers[i].payload)
      && (forall i :: 0 <= i < |w.publishers| && i != turn.who ==> v.publishers[i] == w.publishers[i])
      && (|| (v.names == w.names
              && forall i :: 0 <= i < |w.publishers| ==> v.publishers[i].Created() == w.publishers[i].Created())
          || (turn.who < |w.publishers| && w.publishers[turn.who].Created().None?
              && v.publishers[turn.who].Created().Some? && v.publishers[turn.who].Created().value !in w.names
              && v.names == w.names[v.publishers[turn.who].Created().value := w.publishers[turn.who].payload]))
  {}

  lemma TurnOnlyAdds(before: map<string, Content>, w: World, turn: Turn)
    requires OnlyAdded(before, w)
    ensures OnlyAdded(before, Next(w, turn))
  {
    var v := Next(w, turn);
    TurnShape(w, turn);
    var ps, qs := w.publishers, v.publishers;
    forall n | n in v.names && n !in before
      ensures exists i :: 0 <= i < |qs| && qs[i].Created() == Some(n)
    {
      if n in w.names {
        var i :| 0 <= i < |ps| && ps[i].Created() == Some(n);
        assert qs[i].Created() == Some(n);
      } else {
        assert qs[turn.who].Created() == Some(n);
      }
    }
  }

  /**
   * However publishers interleave and fail, no existing name changes or disappears, every created
   * name holds its own publisher's payload, and no two publishers ever share one.
   */
  lemma {:induction false} InterleavedPublishersNeverOverwrite(w: World, turns: seq<Turn>)
    requires Fresh(w)
    ensures OnlyAdded(w.names, After(w, turns))
    ensures |After(w, turns).publishers| == |w.publishers|
  {
    if turns != [] {
      var most := turns[..|turns| - 1];
      InterleavedPublishersNeverOverwrite(w, most);
      TurnOnlyAdds(w.names, After(w, most), turns[|turns| - 1]);
    }
  }
}
