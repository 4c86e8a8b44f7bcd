/** One subscriber of the live data: its filter, what waits for the next flush, and its bounded channel. */
module LiveUnit {
  import opened Sequences
  import opened Samples
  import opened Events
  import opened LiveChanges

  /** How many payloads the channel of a subscriber holds. */
  const CHANNEL_SIZE: nat := 2

  class LiveUnit {
    const filter: Filter
    var nodesChange: seq<(int, NodeState)>
    var deviceChange: seq<(int, DeviceState)>
    var valueChange: seq<(string, Value)>
    /** The channel: payloads not received yet, and whether anybody is left to receive them. */
    var queue: seq<Payload>
    var open: bool
    /** Every payload the channel ever accepted, and the loop step in which it did. */
    ghost var sent: seq<Payload>
    ghost var marks: seq<nat>

    function Pending(): Payload
      reads this`nodesChange, this`deviceChange, this`valueChange
    {
      Payload(nodesChange, deviceChange, valueChange)
    }

    predicate CanSend()
      reads this`queue, this`open
    {
      open && |queue| < CHANNEL_SIZE
    }

    ghost predicate Valid()
      reads this`queue, this`sent, this`marks
    {
      |queue| <= CHANNEL_SIZE && |queue| <= |sent| && queue == sent[|sent| - |queue|..] && |marks| == |sent|
    }

    constructor (filter: Filter)
      ensures Valid() && this.filter == filter && Pending() == NOTHING && sent == [] && marks == [] && open
    {
      this.filter := filter;
      nodesChange, deviceChange, valueChange := [], [], [];
      queue, open := [], true;
      sent, marks := [], [];
    }

    method NodeEvents(id: int, state: NodeState)
      modifies this`nodesChange
      ensures nodesChange == old(nodesChange) + Keep([(id, state)], filter.nodes)
    {
      KeepOne((id, state), filter.nodes);
      if id in filter.nodes {
        nodesChange := nodesChange + [(id, state)];
      }
    }

    method DeviceEvents(id: int, state: DeviceState)
      modifies this`deviceChange
      ensures deviceChange == old(deviceChange) + Keep([(id, state)], filter.devices)
    {
      KeepOne((id, state), filter.devices);
      if id in filter.devices {
        deviceChange := deviceChange + [(id, state)];
      }
    }

    method ValueEvents(tag: string, value: Value)
      modifies this`valueChange
      ensures valueChange == old(valueChange) + Keep([(tag, value)], filter.tags)
    {
      KeepOne((tag, value), filter.tags);
      if tag in filter.tags {
        valueChange := valueChange + [(tag, value)];
      }
    }

    /** Send what is pending, if anything is; the unit is dead if the channel does not take it. */
    method Flush(ghost step: nat) returns (alive: bool)
      requires Valid()
      modifies this
      ensures Valid() && Pending() == NOTHING && open == old(open)
      ensures alive == (old(Pending()) == NOTHING || old(CanSend()))
      ensures alive ==> SentIn(step, old(sent), old(marks), old(Pending()), sent, marks)
      ensures !alive ==> sent == old(sent) && marks == old(marks)
      ensures queue == old(queue) + sent[|old(sent)|..]
    {
      if nodesChange == [] && deviceChange == [] && valueChange == [] {
        return true;
      }
      alive := open && |queue| < CHANNEL_SIZE;
      if alive {
        queue := queue + [Pending()];
        sent := sent + [Pending()];
        marks := marks + [step];
      }
      nodesChange, deviceChange, valueChange := [], [], [];
    }

    /** The other end of the channel takes the oldest payload, or goes away. */
    method Receive() returns (r: Option<Payload>)
      requires Valid()
      modifies this`queue
      ensures Valid()
      ensures old(queue) == [] ==> r == None && queue == []
      ensures old(queue) != [] ==> r == Some(old(queue)[0]) && queue == old(queue)[1..]
    {
      if queue == [] {
        return None;
      }
      r := Some(queue[0]);
      queue := queue[1..];
    }

    method Close()
      modifies this`open
      ensures !open
    {
      open := false;
    }
  }

  lemma KeepOne<K, V>(c: (K, V), keys: set<K>)
    ensures Keep([c], keys) == if c.0 in keys then [c] else []
  {
    KeepLast([], c, keys);
    assert [] + [c] == [c];
  }
}
