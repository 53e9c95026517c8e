/**
 * The reflect contract: an owner-gated relay that re-emits the messages its
 * owner sends it, lets the owner hand over ownership, and keeps the replies of
 * its sub-messages for later queries.
 *
 * The contract's storage is the class `ReflectContract`: the `config` cell
 * holding the owner and the `replies` bucket keyed by sub-message id.
 */
module Reflect {
  import opened Wrappers
  import opened BindingTypes

  /** A `CosmosMsg<OsmosisMsg>`: the contract forwards it without looking inside. */
  datatype CosmosMsg = CosmosMsg(payload: string)

  /** When the chain calls back the sender of a sub-message. */
  datatype ReplyOn = Always | OnError | OnSuccess | Never

  /** A `SubMsg`: a message with the id its reply will carry. */
  datatype SubMsg = SubMsg(id: nat, msg: CosmosMsg, gasLimit: Option<nat>, replyOn: ReplyOn)

  /** `SubMsg::new`: id 0, no gas limit, never reply. */
  function NewSubMsg(msg: CosmosMsg): (s: SubMsg)
    ensures s.msg == msg && s.replyOn == Never && s.id == 0 && s.gasLimit.None?
  {
    SubMsg(0, msg, None, Never)
  }

  /** An event with its attributes. */
  datatype Event = Event(kind: string, attributes: seq<(string, string)>)

  /** The outcome of a sub-message as the chain reports it. */
  datatype SubMsgResult = SubMsgOk(events: seq<Event>, data: Option<seq<bv8>>) | SubMsgErr(msg: string)

  /** A `Reply`: the id of the sub-message and its outcome. */
  datatype Reply = Reply(id: nat, result: SubMsgResult)

  /** A `Response`: the messages to dispatch and the attributes to log. */
  datatype Response = Response(messages: seq<SubMsg>, attributes: seq<(string, string)>)

  /** `ReflectError`. */
  datatype ReflectError =
    | Std(err: StdError)
    | NotCurrentOwner(expected: string, actual: string)
    | MessagesEmpty
    | NotYetImplemented

  /** `ExecuteMsg`. */
  datatype ExecuteMsg =
    | ReflectMsg(msgs: seq<CosmosMsg>)
    | ReflectSubMsg(subMsgs: seq<SubMsg>)
    | ChangeOwner(owner: string)

  /** What `config(...).load()` reports when the owner cell was never written. */
  const STATE_NOT_FOUND: StdError := NotFound("State")

  /** What `replies_read(...).load(...)` reports for an id no reply was stored under. */
  const REPLY_NOT_FOUND: StdError := NotFound("Reply")

  /** The owner gate shared by both reflect operations and the owner change: load the
      owner, then require the sender to be it. */
  function OwnerGate(owner: Option<string>, sender: string): (r: Option<ReflectError>)
    ensures r.None? <==> owner == Some(sender)
    ensures owner.None? ==> r == Some(Std(STATE_NOT_FOUND))
    ensures owner.Some? && owner.value != sender ==> r == Some(NotCurrentOwner(owner.value, sender))
  {
    if owner.None? then Some(Std(STATE_NOT_FOUND))
    else if sender != owner.value then Some(NotCurrentOwner(owner.value, sender))
    else None
  }

  /** `execute_change_owner`'s update of the owner cell, with `addr_validate` as
      `validate`: the new owner and the response, or the error (the cell is then kept). */
  function ChangeOwnerOutcome(owner: Option<string>, sender: string, newOwner: string,
                              validate: string -> Result<string, StdError>): (r: Result<(string, Response), ReflectError>)
    ensures owner != Some(sender) ==> r.Err? && r.error != MessagesEmpty
    ensures owner.Some? && owner.value != sender ==> r == Err(NotCurrentOwner(owner.value, sender))
    ensures owner == Some(sender) ==>
              match validate(newOwner)
              case Err(e) => r == Err(Std(e))
              case Ok(addr) => r.Ok? && r.value.0 == addr
    ensures r.Ok? ==> r.value.1 == Response([], [("action", "change_owner"), ("owner", newOwner)])
  {
    match OwnerGate(owner, sender)
    case Some(e) => Err(e)
    case None =>
      match validate(newOwner)
      case Err(e) => Err(Std(e))
      case Ok(addr) => Ok((addr, Response([], [("action", "change_owner"), ("owner", newOwner)])))
  }

  /** The contract's storage: the owner cell (absent before `instantiate`) and the replies
      by sub-message id. */
  class ReflectContract {
    var owner: Option<string>
    var replies: map<nat, Reply>

    /** Every stored reply sits under its own id. */
    ghost predicate Valid()
      reads this
    {
      forall id :: id in replies ==> replies[id].id == id
    }

    /** Empty storage, before `instantiate`. */
    constructor ()
      ensures owner.None? && replies == map[]
      ensures Valid()
    {
      owner := None;
      replies := map[];
    }

    /** `instantiate`: the sender becomes the owner; no messages. */
    method Instantiate(sender: string) returns (r: Response)
      modifies this
      ensures owner == Some(sender) && replies == old(replies)
      ensures QueryOwner() == Ok(sender)
      ensures r.messages == []
    {
      owner := Some(sender);
      r := Response([], []);
    }

    /** `execute_reflect`: the owner's messages, in order, each as `SubMsg::new`. */
    function ExecuteReflect(sender: string, msgs: seq<CosmosMsg>): (r: Result<Response, ReflectError>)
      reads this
      ensures r.Ok? <==> owner == Some(sender) && msgs != []
      ensures owner != Some(sender) ==> r == Err(OwnerGate(owner, sender).value)
      ensures owner == Some(sender) && msgs == [] ==> r == Err(MessagesEmpty)
      ensures r.Ok? ==> |r.value.messages| == |msgs| &&
                        (forall i :: 0 <= i < |msgs| ==> r.value.messages[i] == NewSubMsg(msgs[i])) &&
                        r.value.attributes == [("action", "reflect")]
    {
      match OwnerGate(owner, sender)
      case Some(e) => Err(e)
      case None =>
        if msgs == [] then Err(MessagesEmpty)
        else Ok(Response(seq(|msgs|, i requires 0 <= i < |msgs| => NewSubMsg(msgs[i])), [("action", "reflect")]))
    }

    /** `execute_reflect_subcall`: the same two checks, then the owner's sub-messages unchanged. */
    function ExecuteReflectSubcall(sender: string, msgs: seq<SubMsg>): (r: Result<Response, ReflectError>)
      reads this
      ensures r.Ok? <==> owner == Some(sender) && msgs != []
      ensures owner != Some(sender) ==> r == Err(OwnerGate(owner, sender).value)
      ensures owner == Some(sender) && msgs == [] ==> r == Err(MessagesEmpty)
      ensures r.Ok? ==> r.value.messages == msgs && r.value.attributes == [("action", "reflect_subcall")]
    {
      match OwnerGate(owner, sender)
      case Some(e) => Err(e)
      case None =>
        if msgs == [] then Err(MessagesEmpty)
        else Ok(Response(msgs, [("action", "reflect_subcall")]))
    }

    /** `execute_change_owner`: the owner cell changes only when the sender owns the contract
        and the new address validates; replies are never touched. */
    method ExecuteChangeOwner(sender: string, newOwner: string, validate: string -> Result<string, StdError>)
      returns (r: Result<Response, ReflectError>)
      modifies this
      ensures replies == old(replies)
      ensures match ChangeOwnerOutcome(old(owner), sender, newOwner, validate)
              case Ok(x) => owner == Some(x.0) && r == Ok(x.1)
              case Err(e) => owner == old(owner) && r == Err(e)
    {
      var gate := OwnerGate(owner, sender);
      if gate.Some? {
        return Err(gate.value);
      }
      var addr := validate(newOwner);
      if addr.Err? {
        return Err(Std(addr.error));
      }
      owner := Some(addr.value);
      r := Ok(Response([], [("action", "change_owner"), ("owner", newOwner)]));
    }

    /** `execute`: dispatch on the message. */
    method Execute(sender: string, msg: ExecuteMsg, validate: string -> Result<string, StdError>)
      returns (r: Result<Response, ReflectError>)
      modifies this
      ensures replies == old(replies)
      ensures msg.ReflectMsg? ==> owner == old(owner) && r == old(ExecuteReflect(sender, msg.msgs))
      ensures msg.ReflectSubMsg? ==> owner == old(owner) && r == old(ExecuteReflectSubcall(sender, msg.subMsgs))
      ensures msg.ChangeOwner? ==>
                match ChangeOwnerOutcome(old(owner), sender, msg.owner, validate)
                case Ok(x) => owner == Some(x.0) && r == Ok(x.1)
                case Err(e) => owner == old(owner) && r == Err(e)
    {
      match msg
      case ReflectMsg(msgs) =>
        r := ExecuteReflect(sender, msgs);
      case ReflectSubMsg(msgs) =>
        r := ExecuteReflectSubcall(sender, msgs);
      case ChangeOwner(newOwner) =>
        r := ExecuteChangeOwner(sender, newOwner, validate);
    }

    /** `reply`: store the reply under its id, replacing any earlier one. */
    method ReceiveReply(msg: Reply) returns (r: Response)
      requires Valid()
      modifies this
      ensures Valid()
      ensures replies == old(replies)[msg.id := msg] && owner == old(owner)
      ensures QuerySubcall(msg.id) == Ok(msg)
      ensures forall id :: id != msg.id ==> QuerySubcall(id) == old(QuerySubcall(id))
      ensures r.messages == []
    {
      replies := replies[msg.id := msg];
      r := Response([], []);
    }

    /** `query_owner`. */
    function QueryOwner(): (r: Result<string, StdError>)
      reads this
      ensures r.Ok? <==> owner.Some?
      ensures r.Ok? ==> owner == Some(r.value)
      ensures r.Err? ==> r.error == STATE_NOT_FOUND
    {
      if owner.None? then Err(STATE_NOT_FOUND) else Ok(owner.value)
    }

    /** `query_subcall`: the reply stored under `id`, which carries that id. */
    function QuerySubcall(id: nat): (r: Result<Reply, StdError>)
      reads this
      ensures r.Ok? <==> id in replies
      ensures r.Ok? ==> r.value == replies[id] && (Valid() ==> r.value.id == id)
      ensures r.Err? ==> r.error == REPLY_NOT_FOUND
    {
      if id in replies then Ok(replies[id]) else Err(REPLY_NOT_FOUND)
    }
  }
}
