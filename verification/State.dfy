/**
 The broker's in-memory tables. One `BrokerState` object is shared by the
 mailbox, rate-limit, room and routing code, each of which updates it in place.
 */
module StateTables {
  import opened Common

  /** Turn state last announced by a peer; `at` is the announcement time (ms). */
  datatype Activity = Unknown | Idle | Busy(at: int) | Stalled

  /** `since` is the time of the claim (ms), if it has a readable one. */
  datatype Reservation = Reservation(pattern: string, reason: Option<string>, since: Option<int>)

  /** `gen` stands for the object identity of the record: a re-hello makes a
      new record, so it gets a new `gen`. */
  datatype Peer = Peer(
    alias: Alias,
    sock: Sock,
    gen: nat,
    rooms: map<Room, Role>,
    reservations: seq<Reservation>,
    activity: Activity,
    caps: seq<string>)

  datatype Bucket = Bucket(tokens: real, lastRefillAt: int)

  datatype PeerRates = PeerRates(msg: Bucket, urgent: Bucket, force: Bucket)

  function NewBucket(tokens: int, now: int): Bucket { Bucket(tokens as real, now) }

  class BrokerState {
    var peers: map<Alias, Peer>
    /** room -> members in joining order, without duplicates */
    var rooms: map<Room, seq<Alias>>
    var mailbox: map<Alias, seq<Stored>>
    var rates: map<Alias, PeerRates>
    var knownAliases: map<Alias, int>
    var mailboxDelivered: nat
    var mailboxDropped: nat

    constructor ()
      ensures peers == map[] && rooms == map[] && mailbox == map[] && rates == map[]
      ensures knownAliases == map[] && mailboxDelivered == 0 && mailboxDropped == 0
    {
      peers, rooms, mailbox, rates := map[], map[], map[], map[];
      knownAliases, mailboxDelivered, mailboxDropped := map[], 0, 0;
    }
  }
}
