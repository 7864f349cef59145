/**
 * `DiscordService`: classifying chat messages and keeping one voice connection per guild.
 *
 * The voice-transport library is opaque: a connection is a handle with a serial number,
 * the guild and the channel it joined; a player is a serial number. What the service asks
 * of the transport (join, destroy, subscribe, play) is recorded in a ghost event log.
 */
module Discord {
  import opened Wrappers
  import opened Repository
  import opened Catalog

  type GuildId = string
  type ChannelId = string

  /**
   * What the handler reads of a chat message: whether a bot wrote it, its text, its guild
   * (None for a direct message), the author's current voice channel (None when the author
   * is not a member or is in no voice channel), and whether its channel can `send`.
   */
  datatype Message = Message(
    authorIsBot: bool,
    content: string,
    guild: Option<GuildId>,
    voiceChannel: Option<ChannelId>,
    canSend: bool)

  /** What `handleMessage` decides to do with a message. */
  datatype Intent =
    | Ignore                    // bot author, or text that is not a command
    | Enlighten                 // reply with a random phrase
    | Lookup(command: string)   // look the first token up in the catalog

  /** The one command answered in text. */
  const Iluminame: string := "!iluminame"

  /** `toLowerCase` on one character (letters A to Z). */
  function LowerChar(c: char): char
  {
    if 'A' <= c <= 'Z' then (c as int - 'A' as int + 'a' as int) as char else c
  }

  /** `toLowerCase` on a string. */
  function Lower(s: string): (r: string)
    ensures |r| == |s|
    ensures forall i :: 0 <= i < |s| ==> r[i] == LowerChar(s[i])
  {
    seq(|s|, i requires 0 <= i < |s| => LowerChar(s[i]))
  }

  predicate IsLower(s: string)
  {
    forall i :: 0 <= i < |s| ==> !('A' <= s[i] <= 'Z')
  }

  /** Lowercased text has no upper-case letter, and lowercasing it again changes nothing. */
  lemma LowerIsLower(s: string)
    ensures IsLower(Lower(s))
    ensures Lower(Lower(s)) == Lower(s)
  {
  }

  /** `split(' ')[0]`: the longest prefix without a space character. */
  function FirstToken(s: string): (r: string)
    ensures r <= s
    ensures forall i :: 0 <= i < |r| ==> r[i] != ' '
    ensures r == s || s[|r|] == ' '
  {
    if s == [] || s[0] == ' ' then [] else [s[0]] + FirstToken(s[1..])
  }

  /** Any prefix without a space that ends the text or is followed by a space is the first token. */
  lemma {:induction false} FirstTokenUnique(s: string, t: string)
    requires t <= s
    requires forall i :: 0 <= i < |t| ==> t[i] != ' '
    requires t == s || s[|t|] == ' '
    ensures FirstToken(s) == t
  {
    if s != [] && s[0] != ' ' {
      assert t != [];
      FirstTokenUnique(s[1..], t[1..]);
      assert t == [s[0]] + t[1..];
    }
  }

  /**
   * `handleMessage`'s classification. Bot messages are ignored; the content is lowercased
   * before any comparison; exactly `!iluminame` is answered in text; any other content
   * starting with `!` is looked up by its first token; the rest is ignored.
   */
  function Route(m: Message): (r: Intent)
    ensures m.authorIsBot ==> r == Ignore
    ensures r == Enlighten <==> !m.authorIsBot && Lower(m.content) == Iluminame
    ensures r.Lookup? <==> !m.authorIsBot && Lower(m.content) != Iluminame && StartsWithBang(Lower(m.content))
    ensures r.Lookup? ==>
      && r.command == FirstToken(Lower(m.content))
      && StartsWithBang(r.command)
      && IsLower(r.command)
  {
    if m.authorIsBot then Ignore
    else
      var content := Lower(m.content);
      if content == Iluminame then Enlighten
      else if StartsWithBang(content) then Lookup(FirstToken(content))
      else Ignore
  }

  /** Routing ignores letter case: two messages whose contents agree up to case route alike. */
  lemma RouteIgnoresCase(m: Message, content: string)
    requires Lower(content) == Lower(m.content)
    ensures Route(m.(content := content)) == Route(m)
  {
  }

  /** `!ILUMINAME` is answered like `!iluminame`; `!iluminame extra` is looked up as `!iluminame`. */
  lemma RouteExamples(m: Message)
    requires !m.authorIsBot
    ensures Route(m.(content := "!ILUMINAME")) == Enlighten
    ensures Route(m.(content := "!iluminame extra")) == Lookup("!iluminame")
    ensures Route(m.(content := "hola !byebye")) == Ignore
  {
    assert Lower("!ILUMINAME") == "!iluminame";
    var t := "!iluminame extra";
    assert Lower(t) == t;
    FirstTokenUnique(t, "!iluminame");
    assert Lower("hola !byebye")[0] == 'h';
  }

  /** A catalog command the router can ask for is lowercase and has no space. */
  lemma RoutedCommandShape(m: Message, s: Sound)
    requires Route(m) == Lookup(s.command)
    ensures IsLower(s.command) && forall i :: 0 <= i < |s.command| ==> s.command[i] != ' '
  {
  }

  // ---------------------------------------------------------------- voice connections

  /** A voice connection handle: joined to `channel` of `guild`; `serial` tells handles apart. */
  datatype Conn = Conn(serial: nat, guild: GuildId, channel: ChannelId)

  /** A call into the voice transport. */
  datatype Event =
    | Joined(conn: Conn)                      // joinVoiceChannel
    | Destroyed(conn: Conn)                   // connection.destroy()
    | Subscribed(conn: Conn, player: nat)     // connection.subscribe(player)
    | Played(player: nat, file: string)       // player.play(createAudioResource(file))

  /** The voice side of the service: `activeConnections`, the handle counters and the transport log. */
  datatype Voice = Voice(conns: map<GuildId, Conn>, nextConn: nat, nextPlayer: nat, log: seq<Event>)

  /**
   * A connection is live once the service joined it and until the service destroys it.
   * A disconnect from outside (a moderator, or the voice library itself) never reaches the
   * log, so such a connection still counts as live here.
   */
  predicate Live(log: seq<Event>, c: Conn)
  {
    Joined(c) in log && Destroyed(c) !in log
  }

  /** Every handle in the log was handed out by the counters. */
  predicate Issued(e: Event, nextConn: nat, nextPlayer: nat)
  {
    match e
    case Joined(c) => c.serial < nextConn
    case Destroyed(c) => c.serial < nextConn
    case Subscribed(c, p) => c.serial < nextConn && p < nextPlayer
    case Played(p, _) => p < nextPlayer
  }

  /**
   * The table agrees with the transport: each stored connection belongs to its guild and is
   * live, and every live connection is the one stored for its guild, so a guild has at most
   * one live connection.
   */
  ghost predicate InSync(v: Voice)
  {
    && (forall g :: g in v.conns ==> v.conns[g].guild == g && Live(v.log, v.conns[g]))
    && (forall c :: Live(v.log, c) ==> c.guild in v.conns && v.conns[c.guild] == c)
    && (forall i :: 0 <= i < |v.log| ==> Issued(v.log[i], v.nextConn, v.nextPlayer))
  }

  /**
   * `handleVoiceCommand` past its guards: reuse the guild's connection when it is on the
   * target channel; otherwise destroy it (if any) and join the target; then a fresh player
   * is subscribed to the connection and plays the file.
   */
  function VoiceCommand(v: Voice, guild: GuildId, target: ChannelId, file: string): (w: Voice)
    ensures guild in w.conns && w.conns[guild].channel == target
    ensures forall g :: g in v.conns && g != guild ==> g in w.conns && w.conns[g] == v.conns[g]
    ensures w.conns.Keys == v.conns.Keys + {guild}
    ensures w.nextPlayer == v.nextPlayer + 1
    ensures v.log <= w.log && |w.log| >= |v.log| + 2
    ensures w.log[|w.log| - 2] == Subscribed(w.conns[guild], v.nextPlayer)
    ensures w.log[|w.log| - 1] == Played(v.nextPlayer, file)
  {
    var p := v.nextPlayer;
    if guild in v.conns && v.conns[guild].channel == target then
      Voice(v.conns, v.nextConn, p + 1, v.log + [Subscribed(v.conns[guild], p), Played(p, file)])
    else
      var c := Conn(v.nextConn, guild, target);
      var moved := if guild in v.conns then [Destroyed(v.conns[guild])] else [];
      Voice(v.conns[guild := c], v.nextConn + 1, p + 1, v.log + moved + [Joined(c), Subscribed(c, p), Played(p, file)])
  }

  /** `handleVoiceCommand` with its guards: no guild or no voice channel leaves everything as it was. */
  function VoiceStep(v: Voice, m: Message, file: string): (w: Voice)
    ensures m.guild.None? || m.voiceChannel.None? ==> w == v
    ensures v.conns.Keys <= w.conns.Keys
  {
    if m.guild.None? || m.voiceChannel.None? then v
    else VoiceCommand(v, m.guild.value, m.voiceChannel.value, file)
  }

  /** The number of joins and of destroys the log records for a guild. */
  function Joins(log: seq<Event>, g: GuildId): nat
  {
    if log == [] then 0
    else (if log[0].Joined? && log[0].conn.guild == g then 1 else 0) + Joins(log[1..], g)
  }

  function Destroys(log: seq<Event>, g: GuildId): nat
  {
    if log == [] then 0
    else (if log[0].Destroyed? && log[0].conn.guild == g then 1 else 0) + Destroys(log[1..], g)
  }

  lemma {:induction false} CountsAppend(a: seq<Event>, b: seq<Event>, g: GuildId)
    ensures Joins(a + b, g) == Joins(a, g) + Joins(b, g)
    ensures Destroys(a + b, g) == Destroys(a, g) + Destroys(b, g)
  {
    if a != [] {
      assert (a + b)[1..] == a[1..] + b;
      CountsAppend(a[1..], b, g);
    } else {
      assert a + b == b;
    }
  }

  /** The next connection serial occurs nowhere in the log. */
  lemma FreshConn(v: Voice, c: Conn)
    requires InSync(v) && c.serial == v.nextConn
    ensures Joined(c) !in v.log && Destroyed(c) !in v.log
    ensures forall p :: Subscribed(c, p) !in v.log
  {
    forall i | 0 <= i < |v.log|
      ensures v.log[i] != Joined(c) && v.log[i] != Destroyed(c) && !(v.log[i].Subscribed? && v.log[i].conn == c)
    {
      assert Issued(v.log[i], v.nextConn, v.nextPlayer);
    }
  }

  /** The next player serial occurs nowhere in the log: each command plays on a player of its own. */
  lemma FreshPlayer(v: Voice, c: Conn, file: string)
    requires InSync(v)
    ensures Subscribed(c, v.nextPlayer) !in v.log && Played(v.nextPlayer, file) !in v.log
  {
    forall i | 0 <= i < |v.log| ensures v.log[i] != Subscribed(c, v.nextPlayer) && v.log[i] != Played(v.nextPlayer, file) {
      assert Issued(v.log[i], v.nextConn, v.nextPlayer);
    }
  }

  /** A voice command keeps the table consistent with the transport. */
  lemma VoiceCommandInSync(v: Voice, guild: GuildId, target: ChannelId, file: string)
    requires InSync(v)
    ensures InSync(VoiceCommand(v, guild, target, file))
  {
    var w := VoiceCommand(v, guild, target, file);
    var p := v.nextPlayer;
    if guild in v.conns && v.conns[guild].channel == target {
      var tail := [Subscribed(v.conns[guild], p), Played(p, file)];
      assert w.log == v.log + tail;
      forall c ensures Live(w.log, c) <==> Live(v.log, c) {
        assert Joined(c) !in tail && Destroyed(c) !in tail;
      }
      forall i | 0 <= i < |w.log| ensures Issued(w.log[i], w.nextConn, w.nextPlayer) {
        if i < |v.log| {
          assert w.log[i] == v.log[i];
          assert Issued(v.log[i], v.nextConn, v.nextPlayer);
        } else {
          var k :| 0 <= k < |v.log| && v.log[k] == Joined(v.conns[guild]);
          assert Issued(v.log[k], v.nextConn, v.nextPlayer);
        }
      }
    } else {
      var c := Conn(v.nextConn, guild, target);
      var moved := if guild in v.conns then [Destroyed(v.conns[guild])] else [];
      var tail := moved + [Joined(c), Subscribed(c, p), Played(p, file)];
      assert w.log == v.log + tail;
      FreshConn(v, c);
      forall d ensures Live(w.log, d) <==> (d == c || (Live(v.log, d) && d.guild != guild)) {
        assert Joined(d) in tail <==> d == c;
        assert Destroyed(d) in tail <==> guild in v.conns && d == v.conns[guild];
        if Live(v.log, d) && d.guild == guild {
          assert d == v.conns[guild];
        }
      }
      forall i | 0 <= i < |w.log| ensures Issued(w.log[i], w.nextConn, w.nextPlayer) {
        if i < |v.log| {
          assert w.log[i] == v.log[i];
          assert Issued(v.log[i], v.nextConn, v.nextPlayer);
        } else if guild in v.conns {
          var k :| 0 <= k < |v.log| && v.log[k] == Joined(v.conns[guild]);
          assert Issued(v.log[k], v.nextConn, v.nextPlayer);
        }
      }
    }
  }

  /** The guarded voice command keeps the table consistent with the transport. */
  lemma VoiceStepInSync(v: Voice, m: Message, file: string)
    requires InSync(v)
    ensures InSync(VoiceStep(v, m, file))
  {
    if m.guild.Some? && m.voiceChannel.Some? {
      VoiceCommandInSync(v, m.guild.value, m.voiceChannel.value, file);
    }
  }

  /** In a consistent state two live connections of the same guild are the same connection. */
  lemma AtMostOneLive(v: Voice, c1: Conn, c2: Conn)
    requires InSync(v)
    requires Live(v.log, c1) && Live(v.log, c2) && c1.guild == c2.guild
    ensures c1 == c2
  {
  }

  /** Subscribing and playing are neither joins nor destroys. */
  lemma {:induction false} CountsOfPlayback(t: seq<Event>, g: GuildId)
    requires forall i :: 0 <= i < |t| ==> t[i].Subscribed? || t[i].Played?
    ensures Joins(t, g) == 0 && Destroys(t, g) == 0
  {
    if t != [] {
      CountsOfPlayback(t[1..], g);
    }
  }

  /**
   * Reuse: when the guild's connection is already on the target channel, the table is
   * unchanged and the transport sees no destroy and no join, only a subscribe and a play.
   */
  lemma ReuseSameChannel(v: Voice, guild: GuildId, target: ChannelId, file: string, g: GuildId)
    requires guild in v.conns && v.conns[guild].channel == target
    ensures VoiceCommand(v, guild, target, file).conns == v.conns
    ensures VoiceCommand(v, guild, target, file).log ==
      v.log + [Subscribed(v.conns[guild], v.nextPlayer), Played(v.nextPlayer, file)]
    ensures Joins(VoiceCommand(v, guild, target, file).log, g) == Joins(v.log, g)
    ensures Destroys(VoiceCommand(v, guild, target, file).log, g) == Destroys(v.log, g)
  {
    var play := [Subscribed(v.conns[guild], v.nextPlayer), Played(v.nextPlayer, file)];
    CountsAppend(v.log, play, g);
    CountsOfPlayback(play, g);
  }

  /**
   * Move: when the guild's connection is on another channel, it is destroyed exactly once,
   * then exactly one new connection to the target is joined and replaces it in the table.
   */
  lemma MoveToOtherChannel(v: Voice, guild: GuildId, target: ChannelId, file: string)
    requires guild in v.conns && v.conns[guild].channel != target && v.conns[guild].guild == guild
    ensures var w := VoiceCommand(v, guild, target, file);
      && w.conns == v.conns[guild := Conn(v.nextConn, guild, target)]
      && w.log == v.log + [Destroyed(v.conns[guild]), Joined(w.conns[guild]),
                           Subscribed(w.conns[guild], v.nextPlayer), Played(v.nextPlayer, file)]
      && Destroys(w.log, guild) == Destroys(v.log, guild) + 1
      && Joins(w.log, guild) == Joins(v.log, guild) + 1
  {
    var c := Conn(v.nextConn, guild, target);
    var play := [Subscribed(c, v.nextPlayer), Played(v.nextPlayer, file)];
    var tail := [Destroyed(v.conns[guild]), Joined(c)] + play;
    assert v.log + [Destroyed(v.conns[guild]), Joined(c), Subscribed(c, v.nextPlayer), Played(v.nextPlayer, file)]
      == v.log + tail;
    CountsAppend(v.log, tail, guild);
    CountsAppend([Destroyed(v.conns[guild]), Joined(c)], play, guild);
    CountsOfPlayback(play, guild);
    assert [Destroyed(v.conns[guild]), Joined(c)][1..] == [Joined(c)];
  }

  /** After a move the old connection is no longer live and the stored one is. */
  lemma MoveRetiresOld(v: Voice, guild: GuildId, target: ChannelId, file: string)
    requires InSync(v)
    requires guild in v.conns && v.conns[guild].channel != target
    ensures !Live(VoiceCommand(v, guild, target, file).log, v.conns[guild])
    ensures Live(VoiceCommand(v, guild, target, file).log, VoiceCommand(v, guild, target, file).conns[guild])
  {
    MoveToOtherChannel(v, guild, target, file);
    VoiceCommandInSync(v, guild, target, file);
  }

  /** First command in a guild: exactly one join and no destroy. */
  lemma FirstJoin(v: Voice, guild: GuildId, target: ChannelId, file: string)
    requires guild !in v.conns
    ensures var w := VoiceCommand(v, guild, target, file);
      && w.conns == v.conns[guild := Conn(v.nextConn, guild, target)]
      && Joins(w.log, guild) == Joins(v.log, guild) + 1
      && Destroys(w.log, guild) == Destroys(v.log, guild)
  {
    var c := Conn(v.nextConn, guild, target);
    var play := [Subscribed(c, v.nextPlayer), Played(v.nextPlayer, file)];
    var tail := [Joined(c)] + play;
    assert v.log + [] + [Joined(c), Subscribed(c, v.nextPlayer), Played(v.nextPlayer, file)] == v.log + tail;
    CountsAppend(v.log, tail, guild);
    CountsAppend([Joined(c)], play, guild);
    CountsOfPlayback(play, guild);
  }

  /** Two commands to the same channel join at most once between them, and destroy nothing after the first. */
  lemma SameChannelTwice(v: Voice, guild: GuildId, target: ChannelId, f1: string, f2: string)
    requires InSync(v)
    ensures var w := VoiceCommand(v, guild, target, f1);
      var x := VoiceCommand(w, guild, target, f2);
      && Joins(x.log, guild) == Joins(v.log, guild) + (if guild in v.conns && v.conns[guild].channel == target then 0 else 1)
      && Joins(x.log, guild) == Joins(w.log, guild)
      && Destroys(x.log, guild) == Destroys(w.log, guild)
      && x.conns == w.conns
  {
    var w := VoiceCommand(v, guild, target, f1);
    ReuseSameChannel(w, guild, target, f2, guild);
    if guild in v.conns && v.conns[guild].channel == target {
      ReuseSameChannel(v, guild, target, f1, guild);
    } else if guild in v.conns {
      MoveToOtherChannel(v, guild, target, f1);
    } else {
      FirstJoin(v, guild, target, f1);
    }
  }

  /**
   * With the seeded catalog and no connection yet, `!byebye` from a user in voice channel
   * `channel` of `guild` joins that channel once and plays `assets/byebye.mp3` on it.
   */
  lemma ByebyeScenario(guild: GuildId, channel: ChannelId)
    ensures var m := Message(false, "!byebye", Some(guild), Some(channel), true);
      var c := Conn(0, guild, channel);
      && Route(m) == Lookup(DefaultCommand)
      && LookupCommand(Seed(Table([], 1)).rows, DefaultCommand) == Some(Sound(1, DefaultCommand, DefaultFilepath))
      && VoiceStep(Voice(map[], 0, 0, []), m, DefaultFilepath) ==
         Voice(map[guild := c], 1, 1, [Joined(c), Subscribed(c, 0), Played(0, DefaultFilepath)])
  {
    var text := "!byebye";
    assert Lower(text) == text;
    FirstTokenUnique(text, text);
    SeedProvides(Table([], 1));
  }

  // ---------------------------------------------------------------- the service

  class DiscordService {
    /** The phrase set answered to `!iluminame`. */
    const phrases: seq<string>
    const sounds: SoundsService
    /** `activeConnections`, by guild. */
    var activeConnections: map<GuildId, Conn>
    var nextConn: nat
    var nextPlayer: nat
    /** The calls made into the voice transport, oldest first. */
    ghost var log: seq<Event>
    /** The text replies sent, oldest first. */
    ghost var replies: seq<string>

    ghost function VoiceState(): Voice
      reads this
    {
      Voice(activeConnections, nextConn, nextPlayer, log)
    }

    ghost predicate Valid()
      reads this, sounds, sounds.repo
    {
      |phrases| > 0 && InSync(VoiceState()) && sounds.Valid()
    }

    constructor (phrases: seq<string>, sounds: SoundsService)
      requires |phrases| > 0 && sounds.Valid()
      ensures Valid() && this.phrases == phrases && this.sounds == sounds
      ensures activeConnections == map[] && log == [] && replies == []
    {
      this.phrases, this.sounds := phrases, sounds;
      activeConnections, nextConn, nextPlayer := map[], 0, 0;
      log, replies := [], [];
    }

    /**
     * Handles one chat message. `pick` is the random phrase index; `lookupFails` stands for
     * the catalog lookup throwing, which is caught and only logged.
     */
    method HandleMessage(m: Message, pick: nat, lookupFails: bool)
      requires Valid() && pick < |phrases|
      modifies this
      ensures Valid()
      ensures replies == old(replies) + (if Route(m) == Enlighten && m.canSend then [phrases[pick]] else [])
      ensures !Route(m).Lookup? ==> VoiceState() == old(VoiceState())
      ensures Route(m).Lookup? && (lookupFails || sounds.GetSoundByCommand(Route(m).command).None?) ==>
        VoiceState() == old(VoiceState())
      ensures Route(m).Lookup? && !lookupFails && sounds.GetSoundByCommand(Route(m).command).Some? ==>
        VoiceState() == VoiceStep(old(VoiceState()), m, sounds.GetSoundByCommand(Route(m).command).value.filepath)
      ensures old(activeConnections).Keys <= activeConnections.Keys
    {
      var intent := Route(m);
      match intent
      case Ignore =>
      case Enlighten =>
        if m.canSend {
          replies := replies + [phrases[pick]];
        }
      case Lookup(command) =>
        if !lookupFails {
          var sound := sounds.GetSoundByCommand(command);
          if sound.Some? {
            ghost var v := VoiceState();
            HandleVoiceCommand(m, sound.value.filepath);
            VoiceStepInSync(v, m, sound.value.filepath);
          }
        }
    }

    /** Joins, reuses or moves the guild's voice connection, then plays the file on a fresh player. */
    method HandleVoiceCommand(m: Message, file: string)
      modifies this
      ensures replies == old(replies)
      ensures VoiceState() == VoiceStep(old(VoiceState()), m, file)
    {
      if m.guild.None? {
        return;
      }
      if m.voiceChannel.None? {
        return;
      }
      var guildId := m.guild.value;
      var target := m.voiceChannel.value;
      ghost var v := VoiceState();
      var connection: Option<Conn> := if guildId in activeConnections then Some(activeConnections[guildId]) else None;
      ghost var events := log;
      if connection.Some? && connection.value.channel != target {
        events := events + [Destroyed(connection.value)];
        connection := None;
      }
      if connection.None? {
        var c := Conn(nextConn, guildId, target);
        nextConn := nextConn + 1;
        events := events + [Joined(c)];
        activeConnections := activeConnections[guildId := c];
        connection := Some(c);
      }
      var player := nextPlayer;
      nextPlayer := nextPlayer + 1;
      log := events + [Subscribed(connection.value, player), Played(player, file)];
    }
  }
}
