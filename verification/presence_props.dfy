/**
 * Properties of the presence client: the refs stay in step with each other
 * and with the canvas objects under every handler, each name has at most one
 * cursor object, and colours are handed out round-robin, once per name.
 */
module PresenceProps {
  import opened Protocol
  import opened Presence

  /** The same names have a last position, a last update time and a cursor. */
  ghost predicate InStep(cl: Client) {
    && cl.lastPosition.Keys == cl.cursors.Keys
    && cl.lastUpdate.Keys == cl.cursors.Keys
  }

  /** Every cursor is filled with its owner's colour and reads "<name> (You)". */
  ghost predicate LabelsMatch(cl: Client) {
    && cl.cursors.Keys <= cl.colors.Keys
    && forall n :: n in cl.cursors ==>
         cl.cursors[n].fill == cl.colors[n] && cl.cursors[n].text == LabelText(n)
  }

  /** The canvas holds one cursor object per cursor and none for other names. */
  ghost predicate OneMarkEach(cl: Client) {
    forall n :: multiset(cl.objects)[CursorMark(n)] == if n in cl.cursors then 1 else 0
  }

  /** Every colour handed out is a palette position. */
  ghost predicate PaletteOnly(cl: Client) {
    forall n :: n in cl.colors ==> cl.colors[n] < |Palette|
  }

  /** The refs and the canvas agree with each other. */
  ghost predicate WellFormed(cl: Client) {
    InStep(cl) && PaletteOnly(cl) && LabelsMatch(cl) && OneMarkEach(cl)
  }

  /** A freshly mounted canvas is well formed. */
  lemma MountWellFormed(local: Name, room: RoomId, now: int)
    ensures WellFormed(Mount(local, room, now))
  {
    var r := Mount(local, room, now);
    forall n ensures multiset(r.objects)[CursorMark(n)] == if n in r.cursors then 1 else 0 {
      assert multiset(r.objects) == multiset{CursorMark(local)};
    }
  }

  /**
   * `updateCursor` keeps the refs in step and never creates a second cursor
   * object: afterwards the name has exactly one.
   */
  lemma UpdateCursorWellFormed(cl: Client, name: Name, x: int, y: int, now: int)
    requires WellFormed(cl)
    ensures WellFormed(UpdateCursor(cl, name, x, y, now))
    ensures multiset(UpdateCursor(cl, name, x, y, now).objects)[CursorMark(name)] == 1
  {
    var r := UpdateCursor(cl, name, x, y, now);
    UpdateKeepsPalette(cl, name, x, y, now);
    UpdateKeepsLabels(cl, name, x, y, now);
    UpdateKeepsMarks(cl, name, x, y, now);
    UpdateKeepsStep(cl, name, x, y, now);
  }

  /** The refs stay keyed by the same names under `updateCursor`. */
  lemma UpdateKeepsStep(cl: Client, name: Name, x: int, y: int, now: int)
    requires InStep(cl)
    ensures InStep(UpdateCursor(cl, name, x, y, now))
  {
  }

  /** Colours stay palette positions under `updateCursor`. */
  lemma UpdateKeepsPalette(cl: Client, name: Name, x: int, y: int, now: int)
    requires PaletteOnly(cl)
    ensures PaletteOnly(UpdateCursor(cl, name, x, y, now))
  {
    var r := UpdateCursor(cl, name, x, y, now);
    forall n | n in r.colors ensures r.colors[n] < |Palette| {
      if n != name { assert n in cl.colors; }
    }
  }

  /** Every label keeps its owner's colour and text under `updateCursor`. */
  lemma UpdateKeepsLabels(cl: Client, name: Name, x: int, y: int, now: int)
    requires LabelsMatch(cl)
    ensures LabelsMatch(UpdateCursor(cl, name, x, y, now))
  {
    var r := UpdateCursor(cl, name, x, y, now);
    forall n | n in r.cursors
      ensures r.cursors[n].fill == r.colors[n] && r.cursors[n].text == LabelText(n)
    {
      if n != name { assert n in cl.cursors; }
    }
  }

  /** Exactly one cursor object per cursor, before and after `updateCursor`. */
  lemma UpdateKeepsMarks(cl: Client, name: Name, x: int, y: int, now: int)
    requires OneMarkEach(cl)
    ensures OneMarkEach(UpdateCursor(cl, name, x, y, now))
    ensures multiset(UpdateCursor(cl, name, x, y, now).objects)[CursorMark(name)] == 1
  {
    var r := UpdateCursor(cl, name, x, y, now);
    if name !in cl.cursors {
      assert multiset(r.objects) == multiset(cl.objects) + multiset{CursorMark(name)};
    }
  }

  /** `handleUserDisconnected` keeps the refs in step and leaves the name no cursor object. */
  lemma UserDisconnectedWellFormed(cl: Client, name: Name)
    requires WellFormed(cl)
    ensures WellFormed(HandleUserDisconnected(cl, name))
    ensures multiset(HandleUserDisconnected(cl, name).objects)[CursorMark(name)] == 0
  {
    var r := HandleUserDisconnected(cl, name);
    if name in cl.cursors {
      forall n ensures multiset(r.objects)[CursorMark(n)] == if n in r.cursors then 1 else 0 {
        assert multiset(r.objects)[CursorMark(n)]
            == multiset(cl.objects)[CursorMark(n)] - (if n == name then 1 else 0);
      }
    }
  }

  /** The liveness sweep keeps the refs in step. */
  lemma SweptWellFormed(cl: Client, now: int)
    requires WellFormed(cl)
    ensures WellFormed(Swept(cl, now))
  {
    var r := Swept(cl, now);
    forall n | n in r.cursors
      ensures r.cursors[n].fill == r.colors[n] && r.cursors[n].text == LabelText(n)
    {
      assert r.cursors[n] == cl.cursors[n].(visible := r.cursors[n].visible);
    }
  }

  /** Clearing the canvas keeps every cursor object and the refs in step. */
  lemma ClearWellFormed(cl: Client)
    requires WellFormed(cl)
    ensures WellFormed(ClearCanvasObjects(cl))
    ensures forall o :: o in ClearCanvasObjects(cl).objects ==> o.CursorMark?
  {
  }

  /** A stroke drawn from a `gameUpdate` is exactly something the next `clearCanvas` erases. */
  lemma ClearErasesDrawnStroke(cl: Client, game: GameEvent)
    ensures ClearCanvasObjects(DrawUpdate(cl, game)) == ClearCanvasObjects(cl)
  {
    if game.kind == "DRAW" {
      var stroke := [Stroke(game.data)];
      KeepCursorsAppend(cl.objects, stroke);
      assert stroke[1..] == [];
      assert KeepCursors(stroke) == [];
      assert KeepCursors(cl.objects + stroke) == KeepCursors(cl.objects);
    }
  }

  /** Every listener of the component keeps the refs in step. */
  lemma HandleWellFormed(cl: Client, ev: Outbound, now: int)
    requires WellFormed(cl)
    ensures WellFormed(Handle(cl, ev, now).next)
  {
    match ev
    case CursorMove(p) => UpdateCursorWellFormed(cl, p.username, p.x, p.y, now);
    case UserDisconnected(name) => UserDisconnectedWellFormed(cl, name);
    case ClearCanvas => ClearWellFormed(cl);
    case GameUpdate(game) =>
      var r := Handle(cl, ev, now).next;
      forall n ensures multiset(r.objects)[CursorMark(n)] == multiset(cl.objects)[CursorMark(n)] {
        if game.kind == "DRAW" {
          assert multiset(r.objects) == multiset(cl.objects) + multiset{Stroke(game.data)};
        }
      }
    case _ =>
  }

  /** The client after handling `evs`, each event with the clock reading it arrived at. */
  function HandleAll(cl: Client, evs: seq<(Outbound, int)>): Client
    decreases |evs|
  {
    if evs == [] then cl
    else HandleAll(Handle(cl, evs[0].0, evs[0].1).next, evs[1..])
  }

  /** A well-formed client stays well formed whatever the server sends it. */
  lemma {:induction false} HandleAllWellFormed(cl: Client, evs: seq<(Outbound, int)>)
    requires WellFormed(cl)
    ensures WellFormed(HandleAll(cl, evs))
    decreases |evs|
  {
    if evs != [] {
      HandleWellFormed(cl, evs[0].0, evs[0].1);
      HandleAllWellFormed(Handle(cl, evs[0].0, evs[0].1).next, evs[1..]);
    }
  }

  /** `getCursorColor` is idempotent: asking again changes nothing and gives the same colour. */
  lemma ColorIdempotent(colors: map<Name, nat>, name: Name)
    ensures var first := CursorColor(colors, name);
      CursorColor(first.colors, name) == first
  {
  }

  /** Colour each name in turn, as successive `getCursorColor` calls do. */
  function ColorAll(colors: map<Name, nat>, names: seq<Name>): map<Name, nat>
    decreases |names|
  {
    if names == [] then colors
    else ColorAll(CursorColor(colors, names[0]).colors, names[1..])
  }

  /** No name occurs twice. */
  predicate Distinct(names: seq<Name>) {
    forall i, j :: 0 <= i < j < |names| ==> names[i] != names[j]
  }

  /** Every name in `names` is still uncoloured when its turn to ask comes. */
  predicate AllNew(colors: map<Name, nat>, names: seq<Name>)
    decreases |names|
  {
    names == [] || (names[0] !in colors && AllNew(CursorColor(colors, names[0]).colors, names[1..]))
  }

  /** Distinct names none of which has a colour yet are each new when they ask. */
  lemma {:induction false} DistinctAllNew(colors: map<Name, nat>, names: seq<Name>)
    requires Distinct(names)
    requires forall n :: n in names ==> n !in colors
    ensures AllNew(colors, names)
    decreases |names|
  {
    if names != [] {
      var next := CursorColor(colors, names[0]).colors;
      FreshTail(colors, names, next);
      DistinctAllNew(next, names[1..]);
    }
  }

  /**
   * Round-robin: when names that are new ask for a colour in turn, the i-th
   * of them gets palette entry (count + i) mod 12, where count is the number
   * of names already coloured.
   */
  lemma {:induction false} ColorAllRoundRobin(colors: map<Name, nat>, names: seq<Name>, i: nat)
    requires AllNew(colors, names)
    requires i < |names|
    ensures names[i] in ColorAll(colors, names)
    ensures ColorAll(colors, names)[names[i]] == NextShade(|colors| + i)
    decreases |names|
  {
    var next := ColorFirst(colors, names);
    if i == 0 {
      KeepsColor(next, names[1..], names[0]);
    } else {
      ColorAllRoundRobin(next, names[1..], i - 1);
      assert names[1..][i - 1] == names[i];
      var count := |next| + (i - 1);
      assert count == |colors| + i;
      assert ColorAll(colors, names)[names[i]] == NextShade(count);
    }
  }

  /** Colouring a list of names starts by colouring its first name. */
  lemma ColorFirst(colors: map<Name, nat>, names: seq<Name>) returns (next: map<Name, nat>)
    requires names != [] && names[0] !in colors
    ensures next == CursorColor(colors, names[0]).colors
    ensures next == colors[names[0] := NextShade(|colors|)]
    ensures |next| == |colors| + 1
    ensures ColorAll(colors, names) == ColorAll(next, names[1..])
  {
    next := CursorColor(colors, names[0]).colors;
  }

  /** After the first name is coloured the rest are still distinct and uncoloured. */
  lemma FreshTail(colors: map<Name, nat>, names: seq<Name>, next: map<Name, nat>)
    requires Distinct(names) && names != []
    requires forall n :: n in names ==> n !in colors
    requires next.Keys == colors.Keys + {names[0]}
    ensures Distinct(names[1..])
    ensures forall n :: n in names[1..] ==> n !in next
  {
    forall a, b | 0 <= a < b < |names[1..]| ensures names[1..][a] != names[1..][b] {
      assert names[1..][a] == names[a + 1] && names[1..][b] == names[b + 1];
    }
    forall n | n in names[1..] ensures n !in next {
      var k :| 0 <= k < |names[1..]| && names[1..][k] == n;
      assert names[k + 1] == n;
    }
  }

  /** A name that already has a colour keeps it whatever is asked afterwards. */
  lemma {:induction false} KeepsColor(colors: map<Name, nat>, names: seq<Name>, name: Name)
    requires name in colors
    ensures name in ColorAll(colors, names) && ColorAll(colors, names)[name] == colors[name]
    decreases |names|
  {
    if names != [] {
      var next := CursorColor(colors, names[0]).colors;
      KeepsColor(next, names[1..], name);
    }
  }

  /** The first twelve distinct names on a fresh client all get different colours. */
  lemma {:induction false} FirstTwelveDiffer(names: seq<Name>, i: nat, j: nat)
    requires Distinct(names) && |names| <= |Palette|
    requires i < j < |names|
    ensures names[i] in ColorAll(map[], names) && names[j] in ColorAll(map[], names)
    ensures ColorAll(map[], names)[names[i]] == i && ColorAll(map[], names)[names[j]] == j
    ensures Hex(ColorAll(map[], names)[names[i]]) != Hex(ColorAll(map[], names)[names[j]])
  {
    var none: map<Name, nat> := map[];
    DistinctAllNew(none, names);
    ColorAllRoundRobin(none, names, i);
    ColorAllRoundRobin(none, names, j);
    var m := ColorAll(none, names);
    PaletteDistinct(i, j);
  }
}
