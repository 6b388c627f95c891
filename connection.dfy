/**
 * The shared Modbus connection: at most one client socket, at most one
 * connection attempt in flight, and a cap of three failed attempts before
 * callers are refused until the counter is reset. A connection attempt is
 * modelled as two steps: starting it (the caller gets a pending attempt) and
 * settling it (the socket opens or the attempt fails).
 */
module Connection {
  import opened Wrappers

  const MaxReconnectAttempts: nat := 3

  /** A client socket; `serial` tells sockets opened by different attempts apart. */
  datatype Socket = Socket(serial: nat, isOpen: bool)

  /** What `getModbusClient` gives its caller. */
  datatype Acquisition =
    | Reused(socket: Socket)   // the open client, without connecting
    | Joined                   // the attempt already in flight
    | Refused                  // too many failed attempts
    | Started                  // a new attempt, now in flight

  class ConnectionManager {
    var client: Option<Socket>
    var isConnecting: bool
    /** `connectionPromise !== null`. */
    var connectionPending: bool
    var reconnectAttempts: nat
    /** Connection attempts started so far. */
    var connects: nat
    /** The serial the next opened socket gets. */
    var nextSerial: nat

    /**
     * A pending attempt is always flagged by both variables, and the failure
     * counter never passes the cap: an attempt only starts below it.
     */
    predicate Valid()
      reads this
    {
      && isConnecting == connectionPending
      && reconnectAttempts <= MaxReconnectAttempts
      && (isConnecting ==> reconnectAttempts < MaxReconnectAttempts)
    }

    constructor ()
      ensures Valid()
      ensures client == None && !isConnecting && !connectionPending && reconnectAttempts == 0 && connects == 0
    {
      client := None;
      isConnecting := false;
      connectionPending := false;
      reconnectAttempts := 0;
      connects := 0;
      nextSerial := 0;
    }

    /** `isConnected`: a client exists and its socket is open. */
    predicate IsConnected()
      reads this
    {
      client.Some? && client.value.isOpen
    }

    /**
     * `getModbusClient`: the open client (clearing the failure counter), else
     * the attempt in flight, else a refusal at the cap, else a new attempt.
     */
    method GetModbusClient() returns (a: Acquisition)
      requires Valid()
      modifies this
      ensures Valid()
      ensures client == old(client) && nextSerial == old(nextSerial)
      ensures old(IsConnected()) ==>
        && a == Reused(old(client).value) && reconnectAttempts == 0
        && isConnecting == old(isConnecting) && connectionPending == old(connectionPending) && connects == old(connects)
      ensures !old(IsConnected()) && old(isConnecting) && old(connectionPending) ==>
        a == Joined && unchanged(this)
      ensures !old(IsConnected()) && !(old(isConnecting) && old(connectionPending)) && old(reconnectAttempts) >= MaxReconnectAttempts ==>
        a == Refused && unchanged(this)
      ensures !old(IsConnected()) && !(old(isConnecting) && old(connectionPending)) && old(reconnectAttempts) < MaxReconnectAttempts ==>
        && a == Started && isConnecting && connectionPending
        && reconnectAttempts == old(reconnectAttempts) && connects == old(connects) + 1
    {
      if client.Some? && client.value.isOpen {
        reconnectAttempts := 0;
        return Reused(client.value);
      }
      if isConnecting && connectionPending {
        return Joined;
      }
      if reconnectAttempts >= MaxReconnectAttempts {
        return Refused;
      }
      isConnecting := true;
      connectionPending := true;
      connects := connects + 1;
      a := Started;
    }

    /**
     * The attempt in flight completes: on success its socket becomes the client
     * and the counter clears, on failure the counter goes up by one; either way
     * no attempt is in flight afterwards.
     */
    method SettleConnect(success: bool) returns (r: Option<Socket>)
      requires Valid() && isConnecting
      modifies this
      ensures Valid()
      ensures !isConnecting && !connectionPending && connects == old(connects)
      ensures success ==>
        && r == Some(Socket(old(nextSerial), true)) && client == r
        && reconnectAttempts == 0 && nextSerial == old(nextSerial) + 1
      ensures !success ==>
        && r == None && client == old(client)
        && reconnectAttempts == old(reconnectAttempts) + 1 && nextSerial == old(nextSerial)
    {
      if success {
        client := Some(Socket(nextSerial, true));
        nextSerial := nextSerial + 1;
        reconnectAttempts := 0;
        r := client;
      } else {
        reconnectAttempts := reconnectAttempts + 1;
        r := None;
      }
      isConnecting := false;
      connectionPending := false;
    }

    /** `closeConnection`: drops the client, whether or not closing its socket fails. */
    method CloseConnection()
      requires Valid()
      modifies this`client
      ensures Valid() && client == None
    {
      client := None;
    }

    /** `forceReconnect`: no client, no attempt in flight, counter cleared. */
    method ForceReconnect()
      requires Valid()
      modifies this`client, this`isConnecting, this`connectionPending, this`reconnectAttempts
      ensures Valid()
      ensures client == None && !isConnecting && !connectionPending && reconnectAttempts == 0
    {
      CloseConnection();
      isConnecting := false;
      connectionPending := false;
      reconnectAttempts := 0;
    }

    /** `resetReconnectAttempts`. */
    method ResetReconnectAttempts()
      requires Valid()
      modifies this`reconnectAttempts
      ensures Valid() && reconnectAttempts == 0
    {
      reconnectAttempts := 0;
    }

    /** The socket reports an error or closes: its handler closes the connection. */
    method SocketClosed()
      requires Valid()
      modifies this`client
      ensures Valid() && client == None
    {
      CloseConnection();
    }

    /**
     * A whole `getModbusClient` call when no other request is in flight: a new
     * attempt is settled by `connectSucceeds`. The caller gets a client iff the
     * link was open or the new attempt succeeded.
     */
    method Acquire(connectSucceeds: bool) returns (ok: bool)
      requires Valid() && !isConnecting
      modifies this
      ensures Valid() && !isConnecting
      ensures ok <==> old(IsConnected()) || (old(reconnectAttempts) < MaxReconnectAttempts && connectSucceeds)
      ensures ok ==> IsConnected() && reconnectAttempts == 0
      ensures !ok ==> client == old(client) && !IsConnected()
      ensures !ok && old(reconnectAttempts) < MaxReconnectAttempts ==> reconnectAttempts == old(reconnectAttempts) + 1
      ensures !ok && old(reconnectAttempts) >= MaxReconnectAttempts ==> unchanged(this)
    {
      var a := GetModbusClient();
      match a
      case Reused(_) =>
        ok := true;
      case Started =>
        var r := SettleConnect(connectSucceeds);
        ok := r.Some?;
      case _ =>
        ok := false;
    }
  }
}
