/**
 The per-sender image rate limiter of `main.py` (`can_send_image`) over the
 `rate_limit` table, which maps a normalised phone to the text of its last
 admitted instant. Time is an integer count of microseconds since the epoch,
 the resolution of Python's `datetime`; the clock reading is a parameter.
 */
module RateLimit {

  import opened Wrappers
  import opened Strings

  const WhatsappPrefix := "whatsapp:"

  const RateLimitMinutes := 2
  const MicrosPerMinute := 60 * 1000000

  /** `timedelta(minutes=RATE_LIMIT_MINUTES)`. */
  const Cooldown := RateLimitMinutes * MicrosPerMinute

  /**
   A stored `last_image` as `datetime.fromisoformat` reads it: a wall-clock
   instant with an optional UTC offset (both in microseconds), or text it
   cannot parse (including a NULL column).
   */
  datatype Stamp = Iso(wall: int, utcOffset: Option<int>) | Unparseable(text: string)

  /** The `rate_limit` table: its primary key makes it a map. */
  type RateTable = map<string, Stamp>

  /** The UTC instant a parsed stamp denotes; a naive stamp is taken as UTC. */
  function UtcInstant(s: Stamp): int
    requires s.Iso?
  {
    s.wall - s.utcOffset.GetOr(0)
  }

  /** `now.isoformat()` of an aware UTC clock reading: offset `+00:00`. */
  function StampOf(now: int): Stamp {
    Iso(now, Some(0))
  }

  /** Strip the sender and make sure it carries the `whatsapp:` prefix. */
  function NormalizePhone(phone: string): (r: string)
    ensures StartsWith(r, WhatsappPrefix)
    ensures Stripped(r)
    ensures EndsWith(r, Strip(phone))
    ensures StartsWith(phone, WhatsappPrefix) && Stripped(phone) ==> r == phone
  {
    var p := Strip(phone);
    if StartsWith(p, WhatsappPrefix) then p else WhatsappPrefix + p
  }

  /**
   Normalising twice is normalising once, so the webhook's own
   normalisation followed by the limiter's gives the same key.
   */
  lemma NormalizeIdempotent(phone: string)
    ensures NormalizePhone(NormalizePhone(phone)) == NormalizePhone(phone)
  {
    var n := NormalizePhone(phone);
    StripUnique("", n, "");
    assert "" + n + "" == n;
  }

  /** What one call returns together with the table it leaves behind. */
  datatype Admission = Admission(admitted: bool, table: RateTable)

  /** `can_send_image(phone)` at clock reading `now`. */
  function CanSendImage(table: RateTable, phone: string, now: int): (r: Admission)
    ensures var key := NormalizePhone(phone);
      r.admitted <==> key !in table || (table[key].Iso? && now - UtcInstant(table[key]) >= Cooldown)
    ensures !r.admitted ==> r.table == table
    ensures r.admitted ==> r.table.Keys == table.Keys + {NormalizePhone(phone)}
    ensures r.admitted ==> r.table[NormalizePhone(phone)] == StampOf(now)
    ensures forall k :: k in table && k != NormalizePhone(phone) ==> k in r.table && r.table[k] == table[k]
  {
    var key := NormalizePhone(phone);
    var blocked :=
      if key in table then
        var last := if table[key].Iso? then UtcInstant(table[key]) else now;
        now - last < Cooldown
      else false;
    if blocked then Admission(false, table)
    else Admission(true, table[key := StampOf(now)])
  }

  /**
   The cooldown window: once a sender is admitted at `t1`, a later call from
   the same sender at `t2` is admitted exactly when at least two minutes
   have passed (a clock that went backwards is inside the window).
   */
  lemma CooldownWindow(table: RateTable, p: string, q: string, t1: int, t2: int)
    requires CanSendImage(table, p, t1).admitted
    requires NormalizePhone(p) == NormalizePhone(q)
    ensures CanSendImage(CanSendImage(table, p, t1).table, q, t2).admitted <==> t2 - t1 >= Cooldown
  {
  }

  datatype Call = Call(phone: string, now: int)

  /** The tables and decisions after a sequence of calls, one after the other. */
  datatype Replayed = Replayed(table: RateTable, decisions: seq<bool>)

  function Replay(table: RateTable, calls: seq<Call>): (r: Replayed)
    ensures |r.decisions| == |calls|
    decreases |calls|
  {
    if |calls| == 0 then Replayed(table, [])
    else
      var first := CanSendImage(table, calls[0].phone, calls[0].now);
      var rest := Replay(first.table, calls[1..]);
      Replayed(rest.table, [first.admitted] + rest.decisions)
  }

  /**
   A stored timestamp that does not parse is read as "now", which is always
   inside the window: the sender is rejected on every later call, whoever
   else calls in between, and the entry is never rewritten.
   */
  lemma {:induction false} UnparseableBlocksForever(table: RateTable, key: string, calls: seq<Call>)
    requires key in table && table[key].Unparseable?
    ensures key in Replay(table, calls).table && Replay(table, calls).table[key] == table[key]
    ensures forall i :: 0 <= i < |calls| && NormalizePhone(calls[i].phone) == key ==> !Replay(table, calls).decisions[i]
    decreases |calls|
  {
    if |calls| > 0 {
      var first := CanSendImage(table, calls[0].phone, calls[0].now);
      assert key in first.table && first.table[key] == table[key];
      UnparseableBlocksForever(first.table, key, calls[1..]);
      var r := Replay(table, calls);
      forall i | 0 <= i < |calls| && NormalizePhone(calls[i].phone) == key
        ensures !r.decisions[i]
      {
        if i > 0 {
          assert calls[1..][i - 1] == calls[i];
        }
      }
    }
  }

  /** Calls that are all rejected leave the table exactly as it was. */
  lemma {:induction false} RejectionsWriteNothing(table: RateTable, calls: seq<Call>)
    requires true !in Replay(table, calls).decisions
    ensures Replay(table, calls).table == table
    decreases |calls|
  {
    if |calls| > 0 {
      var decisions := Replay(table, calls).decisions;
      assert decisions[0] in decisions;
      RejectedFirst(table, calls);
      var rest := Replay(table, calls[1..]).decisions;
      assert true !in rest by {
        assert decisions == [false] + rest;
      }
      RejectionsWriteNothing(table, calls[1..]);
    }
  }

  /** A rejected first call leaves the rest of the replay to start from the same table. */
  lemma RejectedFirst(table: RateTable, calls: seq<Call>)
    requires |calls| > 0 && !Replay(table, calls).decisions[0]
    ensures Replay(table, calls).table == Replay(table, calls[1..]).table
    ensures Replay(table, calls).decisions == [false] + Replay(table, calls[1..]).decisions
  {
    ReplayStep(table, calls);
  }

  /** One call, then the rest. */
  lemma ReplayStep(table: RateTable, calls: seq<Call>)
    requires |calls| > 0
    ensures var first := CanSendImage(table, calls[0].phone, calls[0].now);
      var rest := Replay(first.table, calls[1..]);
      && Replay(table, calls).table == rest.table
      && Replay(table, calls).decisions == [first.admitted] + rest.decisions
  {
  }
}
