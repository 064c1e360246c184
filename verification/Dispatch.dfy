/**
 * Nested dispatch: the client remembers the frame it is dispatching so that a payload whose key is
 * missing can be handed to the mailbox whole; a callback may dispatch further frames in between.
 */
module Dispatch {
  import opened Common

  type Frame = seq<byte>

  /** What dispatching a frame does, in order: hand it over for a chat, or dispatch another one first. */
  datatype Doing = Done | Defers(chatId: string, rest: Doing) | Nests(frame: Frame, inside: Doing, rest: Doing)

  datatype Handed = Handed(chatId: string, frame: Frame)

  /** What the mailbox must be given: for each missing key the very frame that needed it. */
  function Expected(frame: Frame, doing: Doing): seq<Handed>
    decreases doing
  {
    match doing
    case Done => []
    case Defers(chatId, rest) => [Handed(chatId, frame)] + Expected(frame, rest)
    case Nests(inner, inside, rest) => (if inner == [] then [] else Expected(inner, inside)) + Expected(frame, rest)
  }

  class Parser {
    var frame: Option<Frame>
    var mailbox: seq<Handed>

    constructor ()
      ensures frame == None && mailbox == []
    {
      frame, mailbox := None, [];
    }

    /** `parser_dispatch`: an empty frame is ignored; the frame dispatched before is current again afterwards. */
    method ParserDispatch(data: Frame, doing: Doing)
      modifies this
      ensures frame == old(frame)
      ensures mailbox == old(mailbox) + (if data == [] then [] else Expected(data, doing))
      decreases doing, 1
    {
      if data == [] {
        return;
      }
      var previous := frame;
      frame := Some(data);
      DispatchMessage(data, doing);
      frame := previous;
    }

    method DispatchMessage(ghost data: Frame, doing: Doing)
      requires frame == Some(data)
      modifies this
      ensures frame == old(frame)
      ensures mailbox == old(mailbox) + Expected(data, doing)
      decreases doing, 0
    {
      ghost var before := mailbox;
      match doing {
        case Done =>
        case Defers(chatId, rest) =>
          DecryptBody(chatId);
          DispatchMessage(data, rest);
          Associate(before, [Handed(chatId, data)], Expected(data, rest));
        case Nests(inner, inside, rest) =>
          ParserDispatch(inner, inside);
          DispatchMessage(data, rest);
          Associate(before, if inner == [] then [] else Expected(inner, inside), Expected(data, rest));
      }
    }

    /** The key is missing: the mailbox gets whatever frame is current. */
    method DecryptBody(chatId: string)
      modifies this`mailbox
      ensures mailbox == if frame.Some? then old(mailbox) + [Handed(chatId, frame.value)] else old(mailbox)
    {
      if frame.Some? {
        mailbox := mailbox + [Handed(chatId, frame.value)];
      }
    }
  }
}
