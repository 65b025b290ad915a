/** The channel registry: joining, access lists and the resolution of a fan-out's recipients. */
module Channels {
  import opened HubState

  /** An empty access list admits everyone. */
  datatype Channel = Channel(allowed: seq<string>, members: set<Id>)

  predicate Admits(ch: Channel, pubkey: string) {
    ch.allowed == [] || pubkey in ch.allowed
  }

  /** A channel, or the empty one a first join or access list creates. */
  function ChannelOf(channels: map<Name, Channel>, name: Name): Channel {
    if name in channels then channels[name] else Channel([], {})
  }

  /** Only a holder of the master secret creates a channel; the access list guards every join. */
  predicate MayJoin(channels: map<Name, Channel>, auth: Auth, pubkey: string, name: Name) {
    if name in channels then Admits(channels[name], pubkey) else auth == Master
  }

  function WithMember(channels: map<Name, Channel>, name: Name, id: Id): map<Name, Channel> {
    var ch := ChannelOf(channels, name);
    channels[name := ch.(members := ch.members + {id})]
  }

  /** Members stay. */
  function WithAcl(channels: map<Name, Channel>, name: Name, allowed: seq<string>): map<Name, Channel> {
    channels[name := ChannelOf(channels, name).(allowed := allowed)]
  }

  datatype JoinResult = Created | Joined | Rejoined | JoinDenied

  datatype SendCheck = Ok | UnknownChannel | NotMember | NotAllowed

  function CheckSender(channels: map<Name, Channel>, channel: Name, from: Id, pubkey: string): SendCheck {
    if channel !in channels then UnknownChannel
    else if from !in channels[channel].members then NotMember
    else if !Admits(channels[channel], pubkey) then NotAllowed
    else Ok
  }

  /** The members in some order, those with an installed connection first. */
  ghost predicate IsSplit(members: set<Id>, clients: map<Id, nat>, online: seq<Id>, offline: seq<Id>) {
    && (forall i, j :: 0 <= i < j < |online| ==> online[i] != online[j])
    && (forall i, j :: 0 <= i < j < |offline| ==> offline[i] != offline[j])
    && (forall id :: id in online <==> id in members && id in clients)
    && (forall id :: id in offline <==> id in members && id !in clients)
  }

  class ChannelRegistry {
    var channels: map<Name, Channel>

    constructor ()
      ensures channels == map[]
    {
      channels := map[];
    }

    /** Creates a missing channel for the master, then checks the access list and adds the member. */
    method Join(auth: Auth, id: Id, pubkey: string, name: Name) returns (r: JoinResult)
      modifies this
      ensures r == Created <==> name !in old(channels) && auth == Master
      ensures r == JoinDenied <==> !MayJoin(old(channels), auth, pubkey, name)
      ensures r == Rejoined ==> name in old(channels) && id in old(channels)[name].members
      ensures r == Joined ==> name in old(channels) && id !in old(channels)[name].members
      ensures channels == if r == JoinDenied then old(channels) else WithMember(old(channels), name, id)
    {
      var created := false;
      var ch: Channel;
      if name in channels {
        ch := channels[name];
      } else {
        if auth != Master {
          return JoinDenied;
        }
        ch := Channel([], {});
        channels := channels[name := ch];
        created := true;
      }
      var admitted := Allows(ch, pubkey);
      if !admitted {
        return JoinDenied;
      }
      var rejoin := id in ch.members;
      channels := channels[name := Channel(ch.allowed, ch.members + {id})];
      return if created then Created else if rejoin then Rejoined else Joined;
    }

    /** Replaces the access list; members stay, and a missing channel appears without any. */
    method SetAcl(name: Name, allowed: seq<string>)
      modifies this
      ensures channels == WithAcl(old(channels), name, allowed)
    {
      if name !in channels {
        channels := channels[name := Channel([], {})];
      }
      channels := channels[name := channels[name].(allowed := allowed)];
    }

    /** Splits the members into those with a connection, given as that connection, and the rest. */
    method Targets(clients: map<Id, nat>, channel: Name, from: Id, pubkey: string)
      returns (v: SendCheck, conns: seq<nat>, offline: seq<Id>, ghost online: seq<Id>)
      ensures v == CheckSender(channels, channel, from, pubkey)
      ensures v == UnknownChannel <==> channel !in channels
      ensures v == NotMember <==> channel in channels && from !in channels[channel].members
      ensures v == Ok <==>
        && channel in channels && from in channels[channel].members
        && (channels[channel].allowed == [] || pubkey in channels[channel].allowed)
      ensures v != Ok ==> conns == [] && offline == []
      ensures v == Ok ==> IsSplit(channels[channel].members, clients, online, offline)
      ensures v == Ok ==> |conns| == |online| && forall i :: 0 <= i < |conns| ==> conns[i] == clients[online[i]]
    {
      conns, offline, online := [], [], [];
      if channel !in channels {
        return UnknownChannel, conns, offline, online;
      }
      var ch := channels[channel];
      if from !in ch.members {
        return NotMember, conns, offline, online;
      }
      var admitted := Allows(ch, pubkey);
      if !admitted {
        return NotAllowed, conns, offline, online;
      }
      var todo := ch.members;
      while todo != {}
        invariant todo <= ch.members
        invariant IsSplit(ch.members - todo, clients, online, offline)
        invariant |conns| == |online| && forall i :: 0 <= i < |conns| ==> conns[i] == clients[online[i]]
        decreases |todo|
      {
        var id :| id in todo;
        todo := todo - {id};
        if id in clients {
          conns := conns + [clients[id]];
          online := online + [id];
        } else {
          offline := offline + [id];
        }
      }
      v := Ok;
      assert ch.members - todo == ch.members;
    }
  }

  /** The access check, one entry after the other. */
  method Allows(ch: Channel, pubkey: string) returns (ok: bool)
    ensures ok <==> Admits(ch, pubkey)
  {
    if |ch.allowed| == 0 {
      return true;
    }
    var i := 0;
    while i < |ch.allowed|
      invariant 0 <= i <= |ch.allowed| && pubkey !in ch.allowed[..i]
    {
      if ch.allowed[i] == pubkey {
        return true;
      }
      i := i + 1;
    }
    return false;
  }
}
