/**
 * The decisions main.py makes about a guild, with the chat platform taken
 * away: which channels count as private channels and who is in them, which
 * channels `!init` creates, what `!debug` sets the debug level to, and
 * whether log_debug prints.
 *
 * A guild's text channels are a sequence of Channel values in the order the
 * platform lists them; a member is a value with an identifier, a user name
 * (discord's `member.name`, not the nickname) and a bot flag.
 */
module Bot {
  import opened Wrappers
  import opened Text

  datatype Member = Member(id: nat, name: string, isBot: bool)

  /** A text channel with the members that can see it. */
  datatype Channel = Channel(id: nat, name: string, members: seq<Member>)

  // ---------------------------------------------------------------------------
  // Debug level: DEBUG_LEVEL, log_debug and !debug
  // ---------------------------------------------------------------------------

  /** 0 = silent, 1 = errors only, 2 = info, 3 = verbose. */
  const INITIAL_DEBUG_LEVEL := 3
  const MAX_DEBUG_LEVEL := 3

  /** `max(0, min(level, 3))`: the level `!debug level` stores. */
  function ClampDebugLevel(level: int): (r: int)
    ensures 0 <= r <= MAX_DEBUG_LEVEL
    ensures 0 <= level <= MAX_DEBUG_LEVEL ==> r == level
    ensures level < 0 ==> r == 0
    ensures level > MAX_DEBUG_LEVEL ==> r == MAX_DEBUG_LEVEL
  {
    if level < 0 then 0
    else if level > MAX_DEBUG_LEVEL then MAX_DEBUG_LEVEL
    else level
  }

  /** The line log_debug prints, if any: one exactly when the debug level reaches `level`. */
  function DebugLine(debugLevel: int, message: string, level: int): (r: Option<string>)
    ensures r.Some? <==> debugLevel >= level
    ensures r.Some? ==> r.value == "[DEBUG] " + message
  {
    if debugLevel >= level then Some("[DEBUG] " + message) else None
  }

  /** The module-level DEBUG_LEVEL variable. */
  class DebugSettings {
    var level: int

    constructor ()
      ensures level == INITIAL_DEBUG_LEVEL
    {
      level := INITIAL_DEBUG_LEVEL;
    }

    /** The `!debug` command. */
    method SetLevel(requested: int)
      modifies this
      ensures 0 <= level <= MAX_DEBUG_LEVEL
      ensures level == ClampDebugLevel(requested)
    {
      level := ClampDebugLevel(requested);
    }
  }

  // ---------------------------------------------------------------------------
  // getPrivateChannels
  // ---------------------------------------------------------------------------

  const PRIVATE_MARK := "private"

  predicate IsPrivate(c: Channel)
  {
    Contains(c.name, PRIVATE_MARK)
  }

  /** The members that are not bots, in their original order. */
  function NonBots(members: seq<Member>): (r: seq<Member>)
    ensures forall m :: m in r <==> m in members && !m.isBot
    ensures |r| <= |members|
  {
    if members == [] then []
    else
      var last := members[|members| - 1];
      assert members == members[..|members| - 1] + [last];
      NonBots(members[..|members| - 1]) + (if last.isBot then [] else [last])
  }

  /** Filtering keeps order: the filter of a concatenation is the concatenation of the filters. */
  lemma {:induction false} NonBotsAppend(a: seq<Member>, b: seq<Member>)
    ensures NonBots(a + b) == NonBots(a) + NonBots(b)
    decreases |b|
  {
    if b != [] {
      var last := b[|b| - 1];
      assert (a + b)[..|a + b| - 1] == a + b[..|b| - 1];
      NonBotsAppend(a, b[..|b| - 1]);
    } else {
      assert a + b == a;
    }
  }

  /**
   * The dictionary getPrivateChannels builds: its keys are exactly the text
   * channels whose name contains "private", each mapped to its non-bot members.
   */
  function PrivateChannels(channels: seq<Channel>): (r: map<Channel, seq<Member>>)
    ensures forall c :: c in r <==> c in channels && IsPrivate(c)
    ensures forall c :: c in r ==> r[c] == NonBots(c.members)
  {
    if channels == [] then map[]
    else
      var last := channels[|channels| - 1];
      var rest := PrivateChannels(channels[..|channels| - 1]);
      assert channels == channels[..|channels| - 1] + [last];
      if IsPrivate(last) then rest[last := NonBots(last.members)] else rest
  }

  /** getPrivateChannels(guild), over the guild's text channels. */
  method GetPrivateChannels(textChannels: seq<Channel>) returns (r: map<Channel, seq<Member>>)
    ensures r == PrivateChannels(textChannels)
  {
    r := map[];
    for i := 0 to |textChannels|
      invariant r == PrivateChannels(textChannels[..i])
    {
      assert textChannels[..i + 1][..i] == textChannels[..i];
      var channel := textChannels[i];
      if IsPrivate(channel) {
        var members: seq<Member> := [];
        for j := 0 to |channel.members|
          invariant members == NonBots(channel.members[..j])
        {
          assert channel.members[..j + 1][..j] == channel.members[..j];
          var member := channel.members[j];
          if member.isBot {
            continue;
          }
          members := members + [member];
        }
        assert channel.members[..|channel.members|] == channel.members;
        r := r[channel := members];
      }
    }
    assert textChannels[..|textChannels|] == textChannels;
  }

  // ---------------------------------------------------------------------------
  // !init
  // ---------------------------------------------------------------------------

  const BASE_CHANNEL_NAMES := ["general", "responses", "add-prompts", "bot-messages"]

  predicate HasChannelNamed(channels: seq<Channel>, name: string)
  {
    exists c :: c in channels && c.name == name
  }

  /** The names, in their order, that no channel has yet. */
  function MissingNames(names: seq<string>, channels: seq<Channel>): (r: seq<string>)
    ensures forall n :: n in r <==> n in names && !HasChannelNamed(channels, n)
  {
    if names == [] then []
    else
      var last := names[|names| - 1];
      assert names == names[..|names| - 1] + [last];
      MissingNames(names[..|names| - 1], channels) + (if HasChannelNamed(channels, last) then [] else [last])
  }

  /** The first loop of init: the base channels to create. */
  method MissingBaseChannels(textChannels: seq<Channel>) returns (toCreate: seq<string>)
    ensures toCreate == MissingNames(BASE_CHANNEL_NAMES, textChannels)
  {
    toCreate := [];
    for i := 0 to |BASE_CHANNEL_NAMES|
      invariant toCreate == MissingNames(BASE_CHANNEL_NAMES[..i], textChannels)
    {
      assert BASE_CHANNEL_NAMES[..i + 1][..i] == BASE_CHANNEL_NAMES[..i];
      var name := BASE_CHANNEL_NAMES[i];
      if !HasChannelNamed(textChannels, name) {
        toCreate := toCreate + [name];
      }
    }
    assert BASE_CHANNEL_NAMES[..4] == BASE_CHANNEL_NAMES;
  }

  /** `member in members` for some private channel. */
  predicate HasPrivateChannel(m: Member, privates: map<Channel, seq<Member>>)
  {
    exists c :: c in privates && m in privates[c]
  }

  function PrivateChannelName(m: Member): string
  {
    m.name + "-private"
  }

  /** A private channel init asks the platform to create, readable by `owner`. */
  datatype PrivateRequest = PrivateRequest(name: string, owner: Member)

  /**
   * The private channels init creates: one per non-bot member, in guild
   * order, exactly for those found in no existing private channel.
   */
  function PrivateRequests(members: seq<Member>, privates: map<Channel, seq<Member>>): (r: seq<PrivateRequest>)
    ensures forall q :: q in r ==>
              && q.name == PrivateChannelName(q.owner)
              && q.owner in members && !q.owner.isBot && !HasPrivateChannel(q.owner, privates)
    ensures forall m :: m in members && !m.isBot && !HasPrivateChannel(m, privates) ==>
              PrivateRequest(PrivateChannelName(m), m) in r
  {
    if members == [] then []
    else
      var last := members[|members| - 1];
      assert members == members[..|members| - 1] + [last];
      PrivateRequests(members[..|members| - 1], privates)
      + (if last.isBot || HasPrivateChannel(last, privates) then [] else [PrivateRequest(PrivateChannelName(last), last)])
  }

  /** The second loop of init, with its `for`/`else` search through the private channels. */
  method PlanPrivateChannels(members: seq<Member>, privates: map<Channel, seq<Member>>) returns (requests: seq<PrivateRequest>)
    ensures requests == PrivateRequests(members, privates)
  {
    requests := [];
    for i := 0 to |members|
      invariant requests == PrivateRequests(members[..i], privates)
    {
      assert members[..i + 1][..i] == members[..i];
      var member := members[i];
      if !member.isBot {
        var found := false;
        var unseen := privates.Keys;
        while unseen != {} && !found
          invariant unseen <= privates.Keys
          invariant found ==> HasPrivateChannel(member, privates)
          invariant !found ==> forall c :: c in privates && c !in unseen ==> member !in privates[c]
          decreases |unseen|
        {
          var channel :| channel in unseen;
          if member in privates[channel] {
            found := true;
          }
          unseen := unseen - {channel};
        }
        if !found {
          requests := requests + [PrivateRequest(PrivateChannelName(member), member)];
        }
      }
    }
    assert members[..|members|] == members;
  }

  /** What init asks the platform to create. */
  datatype InitPlan = InitPlan(baseChannels: seq<string>, privateChannels: seq<PrivateRequest>)

  /** init: the base channels that are missing, then a private channel for each member without one. */
  method PlanInit(textChannels: seq<Channel>, guildMembers: seq<Member>) returns (plan: InitPlan)
    ensures plan.baseChannels == MissingNames(BASE_CHANNEL_NAMES, textChannels)
    ensures plan.privateChannels == PrivateRequests(guildMembers, PrivateChannels(textChannels))
  {
    var base := MissingBaseChannels(textChannels);
    var privates := GetPrivateChannels(textChannels);
    var requests := PlanPrivateChannels(guildMembers, privates);
    plan := InitPlan(base, requests);
  }

  /** No base channel name contains "private". */
  lemma BaseNamesAreNotPrivate()
    ensures forall n :: n in BASE_CHANNEL_NAMES ==> !Contains(n, PRIVATE_MARK)
  {
    forall n | n in BASE_CHANNEL_NAMES ensures !Contains(n, PRIVATE_MARK) {
      // The letter at position 3 of "private", 'v', occurs in none of them.
      assert n == "general" || n == "responses" || n == "add-prompts" || n == "bot-messages";
      MissingCharNotContained(n, PRIVATE_MARK, 3);
    }
  }

  /**
   * init reads the private channels after creating the base channels; since
   * those are never private, reading them before gives the same dictionary.
   */
  lemma BaseChannelsLeavePrivatesAlone(channels: seq<Channel>, added: seq<Channel>)
    requires forall c :: c in added ==> c.name in BASE_CHANNEL_NAMES
    ensures PrivateChannels(channels + added) == PrivateChannels(channels)
  {
    BaseNamesAreNotPrivate();
    var before, after := PrivateChannels(channels), PrivateChannels(channels + added);
    assert forall c :: c in after <==> c in before;
  }

  // ---------------------------------------------------------------------------
  // Properties of init
  // ---------------------------------------------------------------------------

  /** "<name>-private" contains "private", so getPrivateChannels recognises it. */
  lemma PrivateNameIsPrivate(m: Member)
    ensures Contains(PrivateChannelName(m), PRIVATE_MARK)
  {
    assert PrivateChannelName(m) == (m.name + "-") + PRIVATE_MARK;
    SuffixIsContained(m.name + "-", PRIVATE_MARK);
  }

  /** Adding channels keeps every private channel and the members found in it. */
  lemma {:induction false} PrivateChannelsGrow(channels: seq<Channel>, added: seq<Channel>, m: Member)
    requires HasPrivateChannel(m, PrivateChannels(channels))
    ensures HasPrivateChannel(m, PrivateChannels(channels + added))
  {
    var c :| c in PrivateChannels(channels) && m in PrivateChannels(channels)[c];
    assert c in channels + added;
  }

  /**
   * A private channel whose members include `m` gives `m` a private channel.
   * Only "private" in the name matters, so a name the platform normalised
   * (lower case, dashes) still counts.
   */
  lemma {:induction false} CreatedChannelIsFound(channels: seq<Channel>, created: Channel, m: Member)
    requires created in channels && IsPrivate(created)
    requires m in created.members && !m.isBot
    ensures HasPrivateChannel(m, PrivateChannels(channels))
  {
    assert created in PrivateChannels(channels);
    assert m in NonBots(created.members);
  }

  /** When every base channel exists, init creates none. */
  lemma {:induction false} NothingMissing(names: seq<string>, channels: seq<Channel>)
    requires forall n :: n in names ==> HasChannelNamed(channels, n)
    ensures MissingNames(names, channels) == []
  {
    if names != [] {
      assert names == names[..|names| - 1] + [names[|names| - 1]];
      NothingMissing(names[..|names| - 1], channels);
    }
  }

  /** When every non-bot member already has a private channel, init creates none. */
  lemma {:induction false} NobodyNeedsChannel(members: seq<Member>, privates: map<Channel, seq<Member>>)
    requires forall m :: m in members && !m.isBot ==> HasPrivateChannel(m, privates)
    ensures PrivateRequests(members, privates) == []
  {
    if members != [] {
      assert members == members[..|members| - 1] + [members[|members| - 1]];
      NobodyNeedsChannel(members[..|members| - 1], privates);
    }
  }

  /**
   * Running init again after its plan was carried out creates nothing: once
   * every missing base channel exists and every requested private channel
   * exists with its owner among its members, the new plan is empty. A
   * channel answers a request when its name contains "private" (as the name
   * `PrivateChannelName` makes does, by `PrivateNameIsPrivate`), whatever
   * exact name the platform gave it.
   */
  lemma {:induction false} InitIsIdempotent(textChannels: seq<Channel>, guildMembers: seq<Member>, created: seq<Channel>)
    requires forall n :: n in MissingNames(BASE_CHANNEL_NAMES, textChannels) ==> HasChannelNamed(created, n)
    requires forall q :: q in PrivateRequests(guildMembers, PrivateChannels(textChannels)) ==>
               exists c :: c in created && IsPrivate(c) && q.owner in c.members
    ensures MissingNames(BASE_CHANNEL_NAMES, textChannels + created) == []
    ensures PrivateRequests(guildMembers, PrivateChannels(textChannels + created)) == []
  {
    var after := textChannels + created;
    forall n | n in BASE_CHANNEL_NAMES
      ensures HasChannelNamed(after, n)
    {
      if HasChannelNamed(textChannels, n) {
        var c :| c in textChannels && c.name == n;
        assert c in after;
      } else {
        assert n in MissingNames(BASE_CHANNEL_NAMES, textChannels);
        var c :| c in created && c.name == n;
        assert c in after;
      }
    }

    var before := PrivateChannels(textChannels);
    forall m | m in guildMembers && !m.isBot
      ensures HasPrivateChannel(m, PrivateChannels(after))
    {
      if HasPrivateChannel(m, before) {
        PrivateChannelsGrow(textChannels, created, m);
      } else {
        var q := PrivateRequest(PrivateChannelName(m), m);
        assert q in PrivateRequests(guildMembers, before);
        var c :| c in created && IsPrivate(c) && q.owner in c.members;
        assert c in after;
        CreatedChannelIsFound(after, c, m);
      }
    }
    NothingMissing(BASE_CHANNEL_NAMES, after);
    NobodyNeedsChannel(guildMembers, PrivateChannels(after));
  }
}
