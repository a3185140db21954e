/**
 The gateway bridge: one adapter slot, and one route per chat id.

 A `tokio` channel is known by a handle into a map that holds what is queued in it. The handle
 of a chat's channel is the number of the turn that opened it; the handle of an adapter's
 channel is the number of its socket.
 */
module Bridge {
  import opened Common

  /** Adapter to daemon. */
  datatype Frame =
    | Draft(chat: string, text: string)
    | Send(chat: string, text: string)
    | Typing(chat: string)

  /** Daemon to adapter. */
  datatype Inbound = Inbound(chat: string, text: string, messageId: string)

  /** One adapter connection: its read loop, its write task and the channel into that task. */
  datatype Socket = Socket(queue: seq<Inbound>, reading: bool, writing: bool)

  /** What the hub's two locks protect, with the channels they refer to. */
  datatype Hub = Hub(
    adapter: Option<nat>, sockets: map<nat, Socket>,
    routes: map<string, nat>, inboxes: map<nat, seq<Frame>>)
  {
    /** The adapter slot holds a channel whose receiver still exists. */
    predicate Accepts() {
      adapter.Some? && adapter.value in sockets && sockets[adapter.value].writing
    }

    /** What the channel `rx` holds. */
    function Inbox(rx: nat): seq<Frame> {
      if rx in inboxes then inboxes[rx] else []
    }

    function SetAdapter(a: nat): Hub {
      this.(adapter := Some(a), sockets := sockets[a := Socket([], true, true)])
    }

    /** The read loop of `a` ends; the slot is emptied whichever socket it holds. */
    function ClearAdapter(a: nat): Hub
      requires a in sockets
    {
      this.(adapter := None, sockets := sockets[a := sockets[a].(reading := false)])
    }

    function OpenChat(chat: string, rx: nat): Hub {
      this.(routes := routes[chat := rx], inboxes := inboxes[rx := []])
    }

    function CloseChat(chat: string): Hub {
      this.(routes := routes - {chat})
    }

    function SendInbound(m: Inbound): Hub {
      if Accepts() then
        var s := sockets[adapter.value];
        this.(sockets := sockets[adapter.value := s.(queue := s.queue + [m])])
      else this
    }

    function Dispatch(f: Frame): Hub {
      if f.chat in routes && routes[f.chat] in inboxes then
        var rx := routes[f.chat];
        this.(inboxes := inboxes[rx := inboxes[rx] + [f]])
      else this
    }

    /** The write task of `a` takes the oldest queued frame. */
    function Transmit(a: nat): Hub
      requires a in sockets && sockets[a].queue != []
    {
      this.(sockets := sockets[a := sockets[a].(queue := sockets[a].queue[1..])])
    }

    /** The write task of `a` is gone: aborted, failed, or finished. */
    function WriterGone(a: nat): Hub
      requires a in sockets
    {
      this.(sockets := sockets[a := sockets[a].(writing := false)])
    }

    /** The receiver of `rx` takes the oldest frame. */
    function Receive(rx: nat): Hub
      requires Inbox(rx) != []
    {
      this.(inboxes := inboxes[rx := inboxes[rx][1..]])
    }
  }

  const EMPTY := Hub(None, map[], map[], map[])

  /** The shared object behind every handler task; each method is one critical section. */
  class BridgeHub {
    var adapter: Option<nat>
    var sockets: map<nat, Socket>
    var routes: map<string, nat>
    var inboxes: map<nat, seq<Frame>>

    function View(): Hub
      reads this
    {
      Hub(adapter, sockets, routes, inboxes)
    }

    constructor ()
      ensures View() == EMPTY
    {
      adapter, sockets, routes, inboxes := None, map[], map[], map[];
    }

    method IsConnected() returns (b: bool)
      ensures b <==> old(View()).adapter.Some?
    {
      b := adapter.Some?;
    }

    /** A new socket announces itself; whatever was in the slot is dropped. */
    method SetAdapter(a: nat)
      requires a !in sockets
      modifies this`adapter, this`sockets
      ensures View() == old(View()).SetAdapter(a)
    {
      sockets := sockets[a := Socket([], true, true)];
      adapter := Some(a);
    }

    method ClearAdapter(a: nat)
      requires a in sockets
      modifies this`adapter, this`sockets
      ensures View() == old(View()).ClearAdapter(a)
    {
      sockets := sockets[a := sockets[a].(reading := false)];
      adapter := None;
    }

    /** Registers a fresh channel for `chat`, replacing any earlier route of that id. */
    method OpenChat(chat: string, rx: nat)
      requires rx !in inboxes
      modifies this`routes, this`inboxes
      ensures View() == old(View()).OpenChat(chat, rx)
    {
      inboxes := inboxes[rx := []];
      routes := routes[chat := rx];
    }

    method CloseChat(chat: string)
      modifies this`routes
      ensures View() == old(View()).CloseChat(chat)
    {
      routes := routes - {chat};
    }

    /** Answers false, and queues nothing, when nobody would read the frame. */
    method SendInbound(chat: string, text: string, messageId: string) returns (ok: bool)
      modifies this`sockets
      ensures ok <==> old(View()).Accepts()
      ensures View() == old(View()).SendInbound(Inbound(chat, text, messageId))
    {
      match adapter {
        case None => ok := false;
        case Some(a) =>
          if a in sockets && sockets[a].writing {
            var queue := sockets[a].queue + [Inbound(chat, text, messageId)];
            sockets := sockets[a := sockets[a].(queue := queue)];
            ok := true;
          } else {
            ok := false;
          }
      }
    }

    /** A frame for an id without a route is dropped. */
    method Dispatch(f: Frame)
      modifies this`inboxes
      ensures View() == old(View()).Dispatch(f)
    {
      if f.chat in routes {
        var rx := routes[f.chat];
        if rx in inboxes {
          inboxes := inboxes[rx := inboxes[rx] + [f]];
        }
      }
    }
  }
}
