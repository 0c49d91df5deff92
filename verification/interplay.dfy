/**
 * The client and the relay together: what a client sends back for the events
 * the relay delivers to it, and what the relay makes of those replies.
 */
module Interplay {
  import opened Wrappers
  import opened Protocol
  import opened Relay
  import opened Presence

  /** The client handling the events of one connection in arrival order, all at clock reading `now`. */
  function HandleInOrder(cl: Client, evs: seq<Outbound>, now: int): (r: Handled)
    ensures |r.sent| <= |evs|
    decreases |evs|
  {
    if evs == [] then Handled(cl, [])
    else
      var first := Handle(cl, evs[0], now);
      var rest := HandleInOrder(first.next, evs[1..], now);
      Handled(rest.next, first.sent + rest.sent)
  }

  /**
   * A member of the room, told that `username` joined, asks the relay about
   * its own room id, and answers with its own position only when its local
   * name is the newcomer's.
   */
  lemma JoinNoticeReply(s: Server, c: ConnId, room: RoomId, username: Name, d: ConnId, cl: Client, now: int)
    requires d in Members(s, room) && d !in Members(s, c)
    ensures var h := HandleInOrder(cl, Received(Join(s, c, room, username).out, d), now);
      && h.next == cl
      && h.sent == [EmitRequestCursorPosition(cl.room, username)]
                   + (if cl.local == username
                      then [EmitCursorMove(CursorPosition(cl.room, Position(cl).x, Position(cl).y, cl.local))]
                      else [])
  {
    var evs := Received(Join(s, c, room, username).out, d);
    assert evs == [UserConnected(username), RequestCursorPosition(username)];
    assert evs[1..] == [RequestCursorPosition(username)];
    assert evs[1..][1..] == [];
    var asked := Handle(cl, RequestCursorPosition(username), now);
    assert asked.sent + [] == asked.sent;
    assert HandleInOrder(cl, evs[1..], now) == asked;
  }

  /** Where the client says it is: its last position, or the centre. */
  function Position(cl: Client): (p: Point)
    ensures cl.local in cl.lastPosition ==> p == cl.lastPosition[cl.local]
    ensures cl.local !in cl.lastPosition ==> p == Centre
  {
    var answer := AnswerPositionRequest(cl, cl.local);
    Point(answer.value.x, answer.value.y)
  }

  /**
   * The `userConnected` reply carries the newcomer's name only as a second
   * argument, which the relay's one-argument listener never reads: whoever
   * joined, the relay reacts the same way, forwarding only when the asking
   * connection's own username equals its room id.
   */
  lemma ConnectedReplyIgnoresNewcomer(s: Server, c: ConnId, cl: Client, a: Name, b: Name, now: int)
    ensures var ra := Handle(cl, UserConnected(a), now).sent;
            var rb := Handle(cl, UserConnected(b), now).sent;
      && |ra| == 1 && |rb| == 1
      && ToServer(ra[0]) == ToServer(rb[0]) == AskCursorPosition(cl.room)
      && Step(s, c, ToServer(ra[0])).Success?
      && (Step(s, c, ToServer(ra[0])).value.out != [] <==>
            SessionOf(s, c).username == Some(cl.room) && HasRoom(SessionOf(s, c)))
  {
  }

  /**
   * A client's answer, sent from its own connection that joined its room,
   * reaches every other member of the room, and their clients then show the
   * answering user's cursor at the answered point.
   */
  lemma AnswerReachesRoom(s: Server, c: ConnId, cl: Client, d: ConnId, other: Client, now: int)
    requires SessionOf(s, c) == Session(Some(cl.room), Some(cl.local)) && cl.room != ""
    requires d in Members(s, cl.room) && d !in Members(s, c)
    ensures var answer := Handle(cl, RequestCursorPosition(cl.local), now).sent;
      && |answer| == 1
      && Step(s, c, ToServer(answer[0])).Success?
      && var delivered := Received(Step(s, c, ToServer(answer[0])).value.out, d);
         && delivered == [CursorMove(answer[0].position)]
         && var seen := HandleInOrder(other, delivered, now).next;
            && cl.local in seen.lastPosition && seen.lastPosition[cl.local] == Position(cl)
            && cl.local in seen.cursors && seen.cursors[cl.local].visible
  {
    var answer := Handle(cl, RequestCursorPosition(cl.local), now).sent;
    var delivered := Received(Step(s, c, ToServer(answer[0])).value.out, d);
    assert delivered == [CursorMove(answer[0].position)];
    assert delivered[1..] == [];
  }
}
