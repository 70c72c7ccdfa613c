/**
 * The "Future of Web3" poll on the live-DApps page: four options with vote
 * counters and a running total, the option currently selected and whether a
 * vote has just been cast.
 */
module LiveDApps {
  import opened JsBuiltins

  datatype PollOption = PollOption(id: int, text: string, votes: int)

  /** The options the poll starts with. */
  function InitialOptions(): (options: seq<PollOption>)
    ensures |options| == 4
    ensures forall i :: 0 <= i < |options| ==> options[i].id == i + 1
    ensures options[0].votes == 45 && options[1].votes == 28
    ensures options[2].votes == 19 && options[3].votes == 34
  {
    [ PollOption(1, "DeFi (Decentralized Finance)", 45),
      PollOption(2, "NFTs and Digital Collectibles", 28),
      PollOption(3, "DAOs (Decentralized Autonomous Organizations)", 19),
      PollOption(4, "GameFi (Gaming + DeFi)", 34) ]
  }

  /** The total the poll starts with. */
  const InitialTotal: int := 126

  function SumVotes(options: seq<PollOption>): int {
    if options == [] then 0 else options[0].votes + SumVotes(options[1..])
  }

  /** How many options carry the id `id`. */
  function CountId(options: seq<PollOption>, id: int): nat {
    if options == [] then 0 else (if options[0].id == id then 1 else 0) + CountId(options[1..], id)
  }

  predicate DistinctIds(options: seq<PollOption>) {
    forall i, j :: 0 <= i < j < |options| ==> options[i].id != options[j].id
  }

  predicate HasId(options: seq<PollOption>, id: int) {
    exists i :: 0 <= i < |options| && options[i].id == id
  }

  /** The ids of the options in order; a shorthand for stating that an update keeps them. */
  function Ids(options: seq<PollOption>): (ids: seq<int>)
    ensures |ids| == |options|
    ensures forall i :: 0 <= i < |options| ==> ids[i] == options[i].id
  {
    if options == [] then [] else [options[0].id] + Ids(options[1..])
  }

  /**
   * The per-option update of `vote`: the option whose id is `selected` gains one
   * vote, every other option is kept as it was.
   */
  function BumpVotes(options: seq<PollOption>, selected: int): (r: seq<PollOption>)
    ensures |r| == |options|
    ensures forall i :: 0 <= i < |options| ==>
      r[i].id == options[i].id && r[i].text == options[i].text &&
      r[i].votes == options[i].votes + (if options[i].id == selected then 1 else 0)
  {
    if options == [] then []
    else
      var o := options[0];
      [if o.id == selected then o.(votes := o.votes + 1) else o] + BumpVotes(options[1..], selected)
  }

  /** The counters grow by one for every option that carries the selected id. */
  lemma {:induction false} SumVotesAfterBump(options: seq<PollOption>, selected: int)
    ensures SumVotes(BumpVotes(options, selected)) == SumVotes(options) + CountId(options, selected)
  {
    if options != [] {
      var r := BumpVotes(options, selected);
      SumVotesAfterBump(options[1..], selected);
      assert r[1..] == BumpVotes(options[1..], selected);
    }
  }

  /** With distinct ids, an id that occurs occurs exactly once. */
  lemma {:induction false} CountIdOfDistinct(options: seq<PollOption>, id: int)
    requires DistinctIds(options)
    ensures CountId(options, id) == if HasId(options, id) then 1 else 0
  {
    if options != [] {
      CountIdOfDistinct(options[1..], id);
      if options[0].id == id {
        assert !HasId(options[1..], id) by {
          forall i | 0 <= i < |options| - 1 ensures options[1..][i].id != id {
            assert options[1..][i] == options[i + 1];
          }
        }
      }
      if HasId(options, id) && options[0].id != id {
        var i :| 0 <= i < |options| && options[i].id == id;
        assert options[1..][i - 1].id == id;
      }
      if HasId(options[1..], id) {
        var i :| 0 <= i < |options| - 1 && options[1..][i].id == id;
        assert options[i + 1].id == id;
      }
    }
  }

  /** Voting for an id no option carries changes no counter. */
  lemma BumpUnknownIdIsIdentity(options: seq<PollOption>, selected: int)
    requires !HasId(options, selected)
    ensures BumpVotes(options, selected) == options
  {
    var r := BumpVotes(options, selected);
    forall i | 0 <= i < |options| ensures r[i] == options[i] {
      assert options[i].id != selected;
    }
  }

  /** The initial counters add up to the initial total. */
  lemma InitialTotalIsSum()
    ensures SumVotes(InitialOptions()) == InitialTotal
    ensures DistinctIds(InitialOptions())
  {
  }

  /** The poll component's state. */
  class Poll {
    var options: seq<PollOption>
    var totalVotes: int
    var selectedOption: Option<int>
    var hasVoted: bool

    /** The total is the sum of the counters, and only an option's id can be selected. */
    ghost predicate Valid()
      reads this
    {
      && DistinctIds(options)
      && totalVotes == SumVotes(options)
      && (selectedOption.Some? ==> HasId(options, selectedOption.value))
    }

    constructor ()
      ensures Valid()
      ensures options == InitialOptions() && totalVotes == InitialTotal
      ensures selectedOption == None && !hasVoted
    {
      options := InitialOptions();
      totalVotes := InitialTotal;
      selectedOption := None;
      hasVoted := false;
      InitialTotalIsSum();
    }

    /** Clicking the option shown at position `k` selects its id. */
    method SelectOption(k: nat)
      requires Valid()
      requires k < |options|
      modifies this
      ensures Valid()
      ensures selectedOption == Some(old(options)[k].id)
      ensures options == old(options) && totalVotes == old(totalVotes) && hasVoted == old(hasVoted)
    {
      selectedOption := Some(options[k].id);
    }

    /**
     * "Submit Vote": with nothing selected nothing changes; otherwise the selected
     * option and the total each gain one vote, the selection is cleared and the
     * poll shows its results.
     */
    method Vote()
      requires Valid()
      modifies this
      ensures Valid()
      ensures old(selectedOption).None? ==>
        options == old(options) && totalVotes == old(totalVotes) &&
        selectedOption == old(selectedOption) && hasVoted == old(hasVoted)
      ensures old(selectedOption).Some? ==>
        options == BumpVotes(old(options), old(selectedOption).value) &&
        totalVotes == old(totalVotes) + 1 &&
        hasVoted && selectedOption == None
      ensures Ids(options) == Ids(old(options))
    {
      if selectedOption.Some? {
        var selected := selectedOption.value;
        SumVotesAfterBump(options, selected);
        CountIdOfDistinct(options, selected);
        var updated := BumpVotes(options, selected);
        assert Ids(updated) == Ids(options);
        assert DistinctIds(updated) by {
          forall i, j | 0 <= i < j < |updated| ensures updated[i].id != updated[j].id {
            assert updated[i].id == options[i].id && updated[j].id == options[j].id;
          }
        }
        options := updated;
        totalVotes := totalVotes + 1;
        hasVoted := true;
        selectedOption := None;
      }
    }

    /** "Vote Again" goes back to the ballot and leaves the counts alone. */
    method VoteAgain()
      requires Valid()
      modifies this
      ensures Valid()
      ensures !hasVoted
      ensures options == old(options) && totalVotes == old(totalVotes) && selectedOption == old(selectedOption)
    {
      hasVoted := false;
    }

    /** "Submit Vote" is enabled exactly when one of the poll's options is selected. */
    function SubmitEnabled(): (enabled: bool)
      reads this
      requires Valid()
      ensures enabled <==> exists i :: 0 <= i < |options| && selectedOption == Some(options[i].id)
    {
      selectedOption.Some?
    }
  }

  /**
   * Selecting the option at position `k` and submitting adds one vote to that
   * option alone; this is what a click followed by "Submit Vote" does.
   */
  method VoteFor(poll: Poll, k: nat)
    requires poll.Valid() && k < |poll.options|
    modifies poll
    ensures poll.Valid() && poll.hasVoted && poll.selectedOption == None
    ensures |poll.options| == |old(poll.options)|
    ensures forall i :: 0 <= i < |poll.options| ==>
      poll.options[i].id == old(poll.options)[i].id &&
      poll.options[i].votes == old(poll.options)[i].votes + (if i == k then 1 else 0)
    ensures poll.totalVotes == old(poll.totalVotes) + 1
  {
    poll.SelectOption(k);
    assert poll.SubmitEnabled();
    poll.Vote();
  }
}
