/** Interactive button handling (api/actions.go): the room-selection form
    leads to a confirmation prompt whose "yes" button carries the request as
    text, and pressing it starts a reservation rebuilt from that text. */
module Actions {
  import opened GoRuntime
  import opened Reservations

  const SelectRoomBlock: string := "select-room"
  const ConfirmRoomBlock: string := "confirm-room"

  /** The value of the "no" button. */
  const DenyValue: string := "deny"

  /** The value of the "yes" button: r_room_start_end. */
  function ConfirmValue(room: string, startTime: string, endTime: string): (v: string)
    ensures HasPrefix(v, "r")
  {
    "r" + [Sep] + room + [Sep] + startTime + [Sep] + endTime
  }

  /** What a confirm-room button press asks for. */
  datatype Confirmation = Declined | Accepted(reserve: Reserve)

  /** Decoding a confirm-room value: a value starting with "r" is split and
      pieces 1 to 3 give room, start and end; the user is the presser's name,
      never a piece of the value. */
  function DecodeConfirm(value: string, userName: string): (c: Result<Confirmation>)
    ensures c == Ok(Declined) <==> !HasPrefix(value, "r")
    ensures c.IndexPanic? <==> HasPrefix(value, "r") && multiset(value)[Sep] < 3
    ensures c.Ok? && c.value.Accepted? ==> c.value.reserve.user == userName && Sep !in c.value.reserve.room
  {
    if !HasPrefix(value, "r") then Ok(Declined)
    else
      SplitLength(value, Sep);
      var info := Split(value, Sep);
      if |info| < 4 then IndexPanic
      else Ok(Accepted(Reserve(info[1], info[2], info[3], userName)))
  }

  /** The button value splits into the "r" marker, room, start and end when
      none of them contains the separator. */
  lemma ConfirmPieces(room: string, startTime: string, endTime: string)
    requires Sep !in room && Sep !in startTime && Sep !in endTime
    ensures Split(ConfirmValue(room, startTime, endTime), Sep) == ["r", room, startTime, endTime]
  {
    var rest := ConfirmValueRest(room, startTime, endTime);
    SplitAtFirst("r", rest, Sep);
    SplitThree(room, startTime, endTime);
  }

  /** The button value is the "r" marker, the separator, then the three fields
      joined by the separator. */
  lemma ConfirmValueRest(room: string, startTime: string, endTime: string) returns (rest: string)
    ensures rest == room + [Sep] + startTime + [Sep] + endTime
    ensures ConfirmValue(room, startTime, endTime) == "r" + [Sep] + rest
  {
    rest := room + [Sep] + startTime + [Sep] + endTime;
  }

  /** The button value carries room, start and end back unchanged when none
      of them contains the separator. */
  lemma ConfirmRoundTrip(room: string, startTime: string, endTime: string, userName: string)
    requires Sep !in room && Sep !in startTime && Sep !in endTime
    ensures DecodeConfirm(ConfirmValue(room, startTime, endTime), userName) ==
            Ok(Accepted(Reserve(room, startTime, endTime, userName)))
  {
    ConfirmPieces(room, startTime, endTime);
  }

  /** The "no" button never starts a reservation. */
  lemma DenyDeclines(userName: string)
    ensures DecodeConfirm(DenyValue, userName) == Ok(Declined)
  {
    assert DenyValue[..1] == "d";
  }

  datatype InteractionType = BlockActions | OtherInteraction

  /** One pressed element: the block it belongs to and its value. */
  datatype BlockAction = BlockAction(blockId: string, value: string)

  /** The room and times picked in the selection form. */
  datatype Selection = Selection(room: string, startTime: string, endTime: string)

  /** The parts of an interaction callback the handler reads. */
  datatype Payload = Payload(kind: InteractionType, actions: seq<BlockAction>, selection: Selection, userName: string)

  datatype Option<T> = None | Some(value: T)

  /** What the handler does with the interaction. */
  datatype ActionResponse =
    | BadRequest
      // replace the form by a prompt with a "yes" and a "no" button
    | AskConfirmation(prompt: string, confirmValue: string, denyValue: string)
      // delete the prompt, starting the reservation when there is one
    | CloseConfirmation(started: Option<Reserve>)
    | NoResponse

  /** The prompt text of the confirmation message. */
  function ConfirmPrompt(s: Selection): string {
    "`" + s.room + "` を `" + s.startTime + "` ~ `" + s.endTime + "` で予約しますか?"
  }

  /** handleActionPayload: a block_actions payload without actions is a bad
      request; otherwise only its first action is dispatched, by block id. */
  function HandleActionPayload(p: Payload): (r: Result<ActionResponse>)
    ensures r == Ok(BadRequest) <==> p.kind == BlockActions && |p.actions| == 0
    ensures r.Ok? && r.value.AskConfirmation? ==>
            r.value.confirmValue == ConfirmValue(p.selection.room, p.selection.startTime, p.selection.endTime) &&
            r.value.denyValue == DenyValue
    ensures r.Ok? && r.value.CloseConfirmation? && r.value.started.Some? ==>
            r.value.started.value.user == p.userName && |p.actions| > 0 &&
            p.actions[0].blockId == ConfirmRoomBlock && HasPrefix(p.actions[0].value, "r")
    ensures p.kind == BlockActions && |p.actions| > 0 && p.actions[0].blockId == SelectRoomBlock ==>
            r == Ok(AskConfirmation(ConfirmPrompt(p.selection),
                                    ConfirmValue(p.selection.room, p.selection.startTime, p.selection.endTime), DenyValue))
    ensures p.kind == BlockActions && |p.actions| > 0 && p.actions[0].blockId == ConfirmRoomBlock ==>
            (r.IndexPanic? <==> DecodeConfirm(p.actions[0].value, p.userName).IndexPanic?) &&
            (r.Ok? ==> r.value.CloseConfirmation? &&
                       (r.value.started.Some? <==> DecodeConfirm(p.actions[0].value, p.userName).value.Accepted?) &&
                       (r.value.started.Some? ==> r.value.started.value == DecodeConfirm(p.actions[0].value, p.userName).value.reserve))
    ensures p.kind == OtherInteraction ==> r == Ok(NoResponse)
    ensures (p.kind == BlockActions && |p.actions| > 0 &&
             p.actions[0].blockId != SelectRoomBlock && p.actions[0].blockId != ConfirmRoomBlock) ==>
            r == Ok(NoResponse)
  {
    match p.kind
    case OtherInteraction => Ok(NoResponse)
    case BlockActions =>
      if |p.actions| == 0 then Ok(BadRequest)
      else
        var action := p.actions[0];
        if action.blockId == SelectRoomBlock then
          var s := p.selection;
          Ok(AskConfirmation(ConfirmPrompt(s), ConfirmValue(s.room, s.startTime, s.endTime), DenyValue))
        else if action.blockId == ConfirmRoomBlock then
          match DecodeConfirm(action.value, p.userName)
          case IndexPanic => IndexPanic
          case Ok(Declined) => Ok(CloseConfirmation(None))
          case Ok(Accepted(r)) => Ok(CloseConfirmation(Some(r)))
        else Ok(NoResponse)
  }

  /** Pressing "yes" on the prompt built for a separator-free selection starts
      exactly the selected reservation, owned by whoever pressed it; pressing
      "no" starts nothing. */
  lemma SelectThenConfirm(form: Payload, press: Payload)
    requires form.kind == BlockActions && |form.actions| > 0 && form.actions[0].blockId == SelectRoomBlock
    requires Sep !in form.selection.room && Sep !in form.selection.startTime && Sep !in form.selection.endTime
    requires press.kind == BlockActions && |press.actions| > 0 && press.actions[0].blockId == ConfirmRoomBlock
    ensures HandleActionPayload(form).Ok? && HandleActionPayload(form).value.AskConfirmation?
    ensures press.actions[0].value == HandleActionPayload(form).value.confirmValue ==>
            HandleActionPayload(press) == Ok(CloseConfirmation(Some(Reserve(form.selection.room,
              form.selection.startTime, form.selection.endTime, press.userName))))
    ensures press.actions[0].value == HandleActionPayload(form).value.denyValue ==>
            HandleActionPayload(press) == Ok(CloseConfirmation(None))
  {
    var s := form.selection;
    ConfirmRoundTrip(s.room, s.startTime, s.endTime, press.userName);
    DenyDeclines(press.userName);
  }

  /** The messages the reservation task posts, in order. */
  datatype Notice =
    | Starting(user: string, room: string)
    | AlreadyReserved(holder: string)
    | Completed(user: string, room: string, startTime: string, endTime: string)

  /** The posts of the reservation task (api/actions.go:68-83), with the outcome of ReserveRoom given as `holder`: a
      non-empty holder is reported and ends the task; otherwise completion is
      announced (an error from ReserveRoom only sets the HTTP status). */
  function ReservationNotices(userName: string, r: Reserve, holder: string): (ns: seq<Notice>)
    ensures |ns| == 2 && ns[0] == Starting(userName, r.room)
    ensures ns[1] == AlreadyReserved(holder) <==> holder != ""
    ensures ns[1].Completed? <==> holder == ""
    ensures ns[1].Completed? ==> ns[1] == Completed(r.user, r.room, r.startTime, r.endTime)
  {
    [Starting(userName, r.room)] +
    if holder != "" then [AlreadyReserved(holder)] else [Completed(r.user, r.room, r.startTime, r.endTime)]
  }
}
