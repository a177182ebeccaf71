/** The proxy core object over its server transaction and failover objects. */
module ProxyCore {
  import opened Wrappers
  import IS = InviteServer
  import opened Failover
  import opened ProxySpec
  import IX = InviteServerExact

  class ProxyObject {
    const server: IS.InviteServerTransaction
    const client: FailoverClient
    const failover503: bool
    var canceled: bool
    var dropResponse: bool

    ghost function View(now: nat): Proxy
      reads this, server, server.table, client
    {
      Proxy(server.View(now), client.View(), canceled, dropResponse, failover503)
    }

    constructor (server: IS.InviteServerTransaction, failover503: bool)
      ensures this.server == server && this.failover503 == failover503 && fresh(client)
      ensures !canceled && !dropResponse && client.View() == Client(None, 0, false, [])
    {
      this.server, this.failover503 := server, failover503;
      canceled, dropResponse := false, false;
      var c := new FailoverClient();
      client := c;
    }

    /** `drop_response`, called by user code from a callback */
    method RunCallbacks(code: nat, cb: Cb, now: nat)
      modifies this`dropResponse, server
      ensures View(now) == RunCb(old(View(now)), code, cb)
    {
      match cb
      case Keep =>
      case Drop => dropResponse := true;
      case DropWith199(text) =>
        dropResponse := true;
        if code >= 300 {
          server.RequestReply(199, text, now);
        }
    }

    method ReplyUnlessDropped(code: nat, rest: string, now: nat)
      modifies this`dropResponse, server
      ensures View(now) == Deliver(old(View(now)), code, rest)
    {
      if !dropResponse {
        server.RequestReply(code, Render(code, rest), now);
      } else {
        dropResponse := false;
      }
    }

    method NoMoreTargetsLeft(why: Why, cb: Cb, now: nat)
      modifies this`dropResponse, server
      ensures View(now) == NoMoreTargets(old(View(now)), why, cb)
    {
      if why.full.Some? {
        var response := why.full.value;
        RunCallbacks(response.code, cb, now);
        var code := if response.code == 503 then 500 else response.code;
        ReplyUnlessDropped(code, response.rest, now);
      } else {
        RunCallbacks(0, cb, now);
        ReplyUnlessDropped(why.status, why.reason, now);
      }
    }

    method TryNextTarget(env: Env, why: Why, cb: Cb, now: nat)
      modifies this`dropResponse, server, client
      ensures View(now) == NextTarget(old(View(now)), env, why, cb)
    {
      var o := client.TryNextTarget(env, why);
      if o.NoMore? {
        NoMoreTargetsLeft(o.why, cb, now);
      }
    }

    /** `receive_response`; env serves the failover that a 503 may start. */
    method ReceiveServerResponse(env: Env, code: nat, rest: string, cb: Cb, now: nat)
      modifies this`dropResponse, server, client
      ensures View(now) == ReceiveResponse(old(View(now)), env, code, rest, cb)
      ensures code != 503 && cb == Keep && !old(dropResponse) && IX.Admits(old(server.state), code) ==>
        server.sent == old(server.sent) + [IS.New(code, Render(code, rest))] && !dropResponse
    {
      hide TryNext;
      var status := code;
      if IS.ValidResponse(server.state, code) {
        if code < 200 && !canceled {
          RunCallbacks(status, cb, now);
        } else if 200 <= code <= 299 {
          RunCallbacks(status, cb, now);
        } else if code >= 300 && !canceled {
          if code == 503 {
            if failover503 {
              TryNextTarget(env, Why(0, "", Some(Response(code, rest))), cb, now);
              return;
            } else {
              status := 500;
              RunCallbacks(status, cb, now);
            }
          } else {
            RunCallbacks(status, cb, now);
          }
        }
      }
      ReplyUnlessDropped(status, rest, now);
    }

    /** `receive_cancel` with its `on_canceled` callbacks, apart from the `do_cancel` it calls on the client
        transaction. */
    method ReceiveCancel(cb: Cb, now: nat)
      modifies this`canceled, this`dropResponse, server
      ensures View(now) == RunCb(old(View(now)).(canceled := true), 0, cb)
    {
      canceled := true;
      RunCallbacks(0, cb, now);
    }

    /** `invite_timeout`: timer C of the client transaction fired. */
    method TimerCExpired(cb: Cb, now: nat)
      modifies this`dropResponse, server
      ensures View(now) == InviteTimeout(old(View(now)), cb)
    {
      RunCallbacks(0, cb, now);
      if !dropResponse {
        server.RequestReply(408, Render(408, "INVITE Timeout"), now);
      }
      dropResponse := true;
    }
  }
}
