/**
 * The channel set of the chat bot: the ordered list of joined channels and the log of
 * join requests handed to the chat transport, and the rule by which `addChannel`
 * changes both.
 */
module Channels {

  /** The channel list together with every join request issued so far, oldest first. */
  datatype ChannelState = ChannelState(channels: seq<string>, joins: seq<string>)

  /** No name occurs twice. */
  predicate NoDuplicates(names: seq<string>)
  {
    forall i, j :: 0 <= i < j < |names| ==> names[i] != names[j]
  }

  /**
   * One `addChannel(channel)`: a member is left alone and no join is issued;
   * a new channel is appended and exactly one join is issued for it.
   */
  function AddChannelTo(state: ChannelState, channel: string): (next: ChannelState)
    ensures channel in next.channels
    ensures channel in state.channels <==> next == state
    ensures channel !in state.channels ==>
              next.channels == state.channels + [channel] && next.joins == state.joins + [channel]
  {
    if channel in state.channels then state
    else ChannelState(state.channels + [channel], state.joins + [channel])
  }

  /** Adding the same channel a second time changes nothing. */
  lemma AddChannelIdempotent(state: ChannelState, channel: string)
    ensures AddChannelTo(AddChannelTo(state, channel), channel) == AddChannelTo(state, channel)
  {
  }

  /**
   * Adding never disturbs what is there: existing entries keep their positions,
   * earlier join requests stay, and a list without duplicates keeps none.
   */
  lemma AddChannelKeepsEntries(state: ChannelState, channel: string)
    ensures state.channels <= AddChannelTo(state, channel).channels
    ensures state.joins <= AddChannelTo(state, channel).joins
    ensures NoDuplicates(state.channels) ==> NoDuplicates(AddChannelTo(state, channel).channels)
  {
  }

  /** The state after `addChannel` has been called once per name in `names`, in order. */
  function AddChannels(state: ChannelState, names: seq<string>): ChannelState
    decreases |names|
  {
    if names == [] then state else AddChannels(AddChannelTo(state, names[0]), names[1..])
  }

  /**
   * What a state reached from a session start `initial` (with no joins yet) by adding
   * channels looks like: the list is the initial one followed by the joined channels,
   * no channel was joined twice, and none of the initial channels was joined.
   * `initial` itself may hold duplicates: the constructor stores whatever list it is given.
   */
  predicate GrownFrom(initial: seq<string>, state: ChannelState)
  {
    state.channels == initial + state.joins &&
    NoDuplicates(state.joins) &&
    forall c :: c in state.joins ==> c !in initial
  }

  lemma {:induction false} AddChannelsGrows(initial: seq<string>, state: ChannelState, names: seq<string>)
    requires GrownFrom(initial, state)
    ensures GrownFrom(initial, AddChannels(state, names))
    ensures forall c :: c in AddChannels(state, names).joins <==>
                          c in state.joins || (c in names && c !in initial)
    decreases |names|
  {
    if names != [] {
      var next := AddChannelTo(state, names[0]);
      assert GrownFrom(initial, next) by {
        if names[0] !in state.channels {
          assert next.channels == initial + next.joins;
        }
      }
      AddChannelsGrows(initial, next, names[1..]);
      forall c
        ensures c in AddChannels(state, names).joins <==> c in state.joins || (c in names && c !in initial)
      {
        assert names == [names[0]] + names[1..];
        assert c in next.joins <==> c in state.joins || (c == names[0] && c !in initial);
      }
    }
  }

  /**
   * From any start list, any run of `addChannel` calls issues exactly one join per
   * distinct channel that was not in the start list, and none for the others; the
   * list becomes the start list followed by those channels.
   */
  lemma JoinedOncePerNewChannel(initial: seq<string>, names: seq<string>)
    ensures var final := AddChannels(ChannelState(initial, []), names);
            final.channels == initial + final.joins &&
            NoDuplicates(final.joins) &&
            (forall c :: c in final.joins <==> c in names && c !in initial)
  {
    assert initial + [] == initial;
    AddChannelsGrows(initial, ChannelState(initial, []), names);
  }

  /** A start list without duplicates stays without duplicates, whatever is added. */
  lemma DistinctStartStaysDistinct(initial: seq<string>, names: seq<string>)
    requires NoDuplicates(initial)
    ensures NoDuplicates(AddChannels(ChannelState(initial, []), names).channels)
  {
    JoinedOncePerNewChannel(initial, names);
    var final := AddChannels(ChannelState(initial, []), names);
    forall i, j | 0 <= i < j < |final.channels|
      ensures final.channels[i] != final.channels[j]
    {
      if j < |initial| {
        assert final.channels[i] == initial[i] && final.channels[j] == initial[j];
      } else if i < |initial| {
        assert final.channels[i] == initial[i] && final.channels[j] == final.joins[j - |initial|];
        assert final.joins[j - |initial|] in final.joins;
        assert initial[i] in initial;
      } else if |initial| <= i {
        assert final.channels[i] == final.joins[i - |initial|];
        assert final.channels[j] == final.joins[j - |initial|];
      }
    }
  }

  /**
   * The requested names that are new: those not in `initial` and not requested
   * earlier, in the order requested.
   */
  function NewNames(initial: seq<string>, names: seq<string>): seq<string>
    decreases |names|
  {
    if names == [] then []
    else
      var earlier, last := names[..|names| - 1], names[|names| - 1];
      if last in initial || last in earlier then NewNames(initial, earlier)
      else NewNames(initial, earlier) + [last]
  }

  lemma {:induction false} AddChannelsSnoc(state: ChannelState, names: seq<string>, last: string)
    ensures AddChannels(state, names + [last]) == AddChannelTo(AddChannels(state, names), last)
    decreases |names|
  {
    if names == [] {
      assert [last][1..] == [];
    } else {
      assert (names + [last])[1..] == names[1..] + [last];
      AddChannelsSnoc(AddChannelTo(state, names[0]), names[1..], last);
    }
  }

  /** The join log lists the new channels in the order they were first requested. */
  lemma {:induction false} JoinsInFirstRequestOrder(initial: seq<string>, names: seq<string>)
    ensures AddChannels(ChannelState(initial, []), names).joins == NewNames(initial, names)
    decreases |names|
  {
    if names != [] {
      var earlier, last := names[..|names| - 1], names[|names| - 1];
      assert names == earlier + [last];
      AddChannelsSnoc(ChannelState(initial, []), earlier, last);
      JoinsInFirstRequestOrder(initial, earlier);
      JoinedOncePerNewChannel(initial, earlier);
      var before := AddChannels(ChannelState(initial, []), earlier);
      assert last in before.channels <==> last in initial || last in earlier;
    }
  }

  /** A session that starts in ["alpha"] and adds "alpha" then "beta" joins "beta" only. */
  lemma AlphaThenBeta()
    ensures AddChannels(ChannelState(["alpha"], []), ["alpha", "beta"]) ==
              ChannelState(["alpha", "beta"], ["beta"])
  {
  }
}
