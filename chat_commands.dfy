/**
 * The chat-command registry of the game controller: a fixed table of
 * MaxCommands slots, each free or holding one command.  Adding fills the
 * lowest free slot unless the name is already registered or the table is
 * full; removing frees the slot of the first entry with that name.
 */
module ChatCommands {
  import opened Wrappers

  /** Number of slots in the table. */
  const MaxCommands := 22
  /** Buffer sizes of the name, help text and argument format, terminator included. */
  const NameSize := 32
  const HelpTextSize := 64
  const ArgsFormatSize := 16

  /** A command handler: CmdList is the one the controller itself defines. */
  datatype Callback = CmdList | Handler(id: nat)

  datatype ChatCommand = ChatCommand(
    name: string,
    argsFormat: string,
    helpText: string,
    callback: Option<Callback>)

  /** A zeroed slot is Free; a slot with its used flag set holds a command. */
  datatype Slot = Free | Used(cmd: ChatCommand)

  /** Messages the registry sends to one client. */
  datatype Message =
    | CommandInfoRemove(name: string, to: int)
    | CommandInfo(name: string, helpText: string, argsFormat: string, to: int)

  /** What a chat command line from a player leads to. */
  datatype Action =
    | Invoke(callback: Callback, client: int, args: string)
    | ExecuteChat(line: string, client: int)

  /** Bytes the UTF-8 encoding of one character takes. */
  function CharSize(c: char): (n: nat)
    ensures 1 <= n <= 4
    ensures n == 1 <==> c as int < 0x80
  {
    if c as int < 0x80 then 1
    else if c as int < 0x800 then 2
    else if c as int < 0x1_0000 then 3
    else 4
  }

  /** Bytes the UTF-8 encoding of a string takes: the buffers hold bytes, not characters. */
  function Utf8Size(s: string): (n: nat)
    ensures |s| <= n <= 4 * |s|
  {
    if |s| == 0 then 0 else Utf8Size(s[..|s| - 1]) + CharSize(s[|s| - 1])
  }

  predicate IsAscii(s: string)
  {
    forall i :: 0 <= i < |s| ==> s[i] as int < 0x80
  }

  /** An ASCII string takes one byte per character. */
  lemma {:induction false} AsciiSize(s: string)
    requires IsAscii(s)
    ensures Utf8Size(s) == |s|
  {
    if |s| > 0 {
      AsciiSize(s[..|s| - 1]);
    }
  }

  /**
   * Copying s into a buffer of `size` bytes: a prefix of whole characters
   * whose encoding leaves room for the terminator, all of s when it fits.
   */
  function Truncate(s: string, size: nat): (r: string)
    requires size > 0
    ensures r <= s && Utf8Size(r) < size
    ensures Utf8Size(s) < size ==> r == s
    decreases |s|
  {
    if Utf8Size(s) < size then s else Truncate(s[..|s| - 1], size)
  }

  /** What Truncate cuts off does not fit: one more character would fill the buffer. */
  lemma {:induction false} TruncateMaximal(s: string, size: nat)
    requires size > 0 && Utf8Size(s) >= size
    ensures var r := Truncate(s, size); |r| < |s| && Utf8Size(s[..|r| + 1]) >= size
    decreases |s|
  {
    var p := s[..|s| - 1];
    var r := Truncate(p, size);
    if Utf8Size(p) >= size {
      TruncateMaximal(p, size);
      assert p[..|r| + 1] == s[..|r| + 1];
    } else {
      assert s[..|r| + 1] == s;
    }
  }

  /** The entry AddCommand writes into the chosen slot: each string cut to its buffer. */
  function NewEntry(name: string, argsFormat: string, helpText: string, callback: Option<Callback>): ChatCommand
  {
    ChatCommand(Truncate(name, NameSize), Truncate(argsFormat, ArgsFormatSize), Truncate(helpText, HelpTextSize), callback)
  }

  predicate Matches(s: Slot, name: string)
  {
    s.Used? && s.cmd.name == name
  }

  /** No two used slots share a name. */
  ghost predicate Unique(s: seq<Slot>)
  {
    forall i, j :: 0 <= i < j < |s| && s[i].Used? && s[j].Used? ==> s[i].cmd.name != s[j].cmd.name
  }

  /** The lowest-index used slot whose name is `name`, if any. */
  function FindCommand(s: seq<Slot>, name: string): (r: Option<nat>)
    ensures r.Some? ==> r.value < |s| && Matches(s[r.value], name)
    ensures r.Some? ==> forall j :: 0 <= j < r.value ==> !Matches(s[j], name)
    ensures r.None? <==> forall j :: 0 <= j < |s| ==> !Matches(s[j], name)
  {
    if |s| == 0 then None
    else if Matches(s[0], name) then Some(0)
    else match FindCommand(s[1..], name)
      case None => None
      case Some(k) => Some(k + 1)
  }

  /** The lowest-index free slot, if any. */
  function FirstFree(s: seq<Slot>): (r: Option<nat>)
    ensures r.Some? ==> r.value < |s| && s[r.value].Free?
    ensures r.Some? ==> forall j :: 0 <= j < r.value ==> s[j].Used?
    ensures r.None? <==> forall j :: 0 <= j < |s| ==> s[j].Used?
  {
    if |s| == 0 then None
    else if s[0].Free? then Some(0)
    else match FirstFree(s[1..])
      case None => None
      case Some(k) => Some(k + 1)
  }

  /** The table after AddCommand. */
  function Added(s: seq<Slot>, name: string, argsFormat: string, helpText: string, callback: Option<Callback>): (r: seq<Slot>)
    ensures |r| == |s|
    ensures (exists j :: 0 <= j < |s| && Matches(s[j], name)) ==> r == s
    ensures (forall j :: 0 <= j < |s| ==> s[j].Used?) ==> r == s
    ensures (forall j :: 0 <= j < |s| ==> !Matches(s[j], name)) && (exists j :: 0 <= j < |s| && s[j].Free?) ==>
      exists i :: 0 <= i < |s| && s[i].Free? && (forall j :: 0 <= j < i ==> s[j].Used?) &&
        r[i] == Used(NewEntry(name, argsFormat, helpText, callback)) &&
        forall j :: 0 <= j < |s| && j != i ==> r[j] == s[j]
  {
    if FindCommand(s, name).Some? then s
    else match FirstFree(s)
      case None => s
      case Some(i) => s[i := Used(NewEntry(name, argsFormat, helpText, callback))]
  }

  /** The table after RemoveCommand. */
  function Removed(s: seq<Slot>, name: string): (r: seq<Slot>)
    ensures |r| == |s|
    ensures (forall j :: 0 <= j < |s| ==> !Matches(s[j], name)) ==> r == s
    ensures (exists j :: 0 <= j < |s| && Matches(s[j], name)) ==>
      exists i :: 0 <= i < |s| && Matches(s[i], name) && (forall j :: 0 <= j < i ==> !Matches(s[j], name)) &&
        r[i] == Free && forall j :: 0 <= j < |s| && j != i ==> r[j] == s[j]
  {
    match FindCommand(s, name)
    case None => s
    case Some(i) => s[i := Free]
  }

  /** The four commands every controller registers at start-up, in order. */
  function WithBuiltins(s: seq<Slot>): seq<Slot>
  {
    var s1 := Added(s, "cmdlist", "", "List all commands which are accessible for you", None);
    var s2 := Added(s1, "credits", "", "Shows the credits of the F-DDrace mod", None);
    var s3 := Added(s2, "info", "", "Shows info about this server", None);
    Added(s3, "For a full list of commands:", "", "/cmdlist", Some(CmdList))
  }

  /** The client-side commands retracted from every connecting client, in order. */
  const ClientSideCommands: seq<string> := ["all", "friend", "m", "mute", "r", "team", "whisper"]

  function RemovalMessages(client: int): (r: seq<Message>)
    ensures |r| == |ClientSideCommands|
    ensures forall k :: 0 <= k < |r| ==> r[k] == CommandInfoRemove(ClientSideCommands[k], client)
  {
    seq(|ClientSideCommands|, k requires 0 <= k < |ClientSideCommands| => CommandInfoRemove(ClientSideCommands[k], client))
  }

  function InfoOf(c: ChatCommand, client: int): Message
  {
    CommandInfo(c.name, c.helpText, c.argsFormat, client)
  }

  /** One info message per used slot of `s`, in slot order. */
  function InfoMessages(s: seq<Slot>, client: int): seq<Message>
  {
    if |s| == 0 then []
    else
      var last := s[|s| - 1];
      InfoMessages(s[..|s| - 1], client) + (if last.Used? then [InfoOf(last.cmd, client)] else [])
  }

  /** The indices of the used slots of `s`, in increasing order. */
  function UsedIndices(s: seq<Slot>): seq<nat>
  {
    if |s| == 0 then []
    else UsedIndices(s[..|s| - 1]) + (if s[|s| - 1].Used? then [|s| - 1] else [])
  }

  /** UsedIndices lists exactly the used slots, each once and in increasing order. */
  lemma {:induction false} UsedIndicesExact(s: seq<Slot>)
    ensures forall k :: 0 <= k < |UsedIndices(s)| ==> UsedIndices(s)[k] < |s| && s[UsedIndices(s)[k]].Used?
    ensures forall k, l :: 0 <= k < l < |UsedIndices(s)| ==> UsedIndices(s)[k] < UsedIndices(s)[l]
    ensures forall i :: 0 <= i < |s| && s[i].Used? ==> i in UsedIndices(s)
  {
    if |s| > 0 {
      var p := s[..|s| - 1];
      var u := UsedIndices(p);
      UsedIndicesExact(p);
      assert UsedIndices(s) == u + (if s[|s| - 1].Used? then [|s| - 1] else []);
      assert forall k :: 0 <= k < |u| ==> u[k] < |p| && s[u[k]] == p[u[k]];
      forall i | 0 <= i < |s| && s[i].Used? ensures i in UsedIndices(s) {
        if i < |s| - 1 {
          assert s[i] == p[i] && i in u;
        }
      }
    }
  }

  /** The k-th info message describes the k-th used slot. */
  lemma {:induction false} InfoMessagesFollowUsedSlots(s: seq<Slot>, client: int)
    ensures |InfoMessages(s, client)| == |UsedIndices(s)|
    ensures forall k :: 0 <= k < |UsedIndices(s)| ==>
      UsedIndices(s)[k] < |s| && s[UsedIndices(s)[k]].Used? &&
      InfoMessages(s, client)[k] == InfoOf(s[UsedIndices(s)[k]].cmd, client)
  {
    UsedIndicesExact(s);
    if |s| > 0 {
      var p := s[..|s| - 1];
      InfoMessagesFollowUsedSlots(p, client);
      UsedIndicesExact(p);
      forall k | 0 <= k < |UsedIndices(p)| ensures s[UsedIndices(p)[k]] == p[UsedIndices(p)[k]] {
      }
    }
  }

  /** Adding a name keeps names unique: the table invariant. */
  lemma AddedKeepsUnique(s: seq<Slot>, name: string, argsFormat: string, helpText: string, callback: Option<Callback>)
    requires Unique(s) && Utf8Size(name) < NameSize
    ensures Unique(Added(s, name, argsFormat, helpText, callback))
  {
    var r := Added(s, name, argsFormat, helpText, callback);
    if FindCommand(s, name).None? && FirstFree(s).Some? {
      var i := FirstFree(s).value;
      assert r == s[i := Used(NewEntry(name, argsFormat, helpText, callback))];
      forall a, b | 0 <= a < b < |r| && r[a].Used? && r[b].Used? ensures r[a].cmd.name != r[b].cmd.name {
        if a == i {
          assert !Matches(s[b], name);
        } else if b == i {
          assert !Matches(s[a], name);
        }
      }
    }
  }

  /** Removing keeps names unique. */
  lemma RemovedKeepsUnique(s: seq<Slot>, name: string)
    requires Unique(s)
    ensures Unique(Removed(s, name))
  {
  }

  /** Adding the same name twice leaves exactly what adding it once leaves. */
  lemma AddedIdempotent(s: seq<Slot>, name: string, argsFormat: string, helpText: string, callback: Option<Callback>,
                        argsFormat': string, helpText': string, callback': Option<Callback>)
    requires Utf8Size(name) < NameSize
    ensures var once := Added(s, name, argsFormat, helpText, callback);
      Added(once, name, argsFormat', helpText', callback') == once
  {
    var once := Added(s, name, argsFormat, helpText, callback);
    if FindCommand(s, name).None? && FirstFree(s).Some? {
      var i := FirstFree(s).value;
      assert Matches(once[i], name);
    }
  }

  /** After a successful add the name is found, in the slot it was written to. */
  lemma AddedThenFound(s: seq<Slot>, name: string, argsFormat: string, helpText: string, callback: Option<Callback>)
    requires FindCommand(s, name).None? && FirstFree(s).Some?
    requires Utf8Size(name) < NameSize
    ensures var r := Added(s, name, argsFormat, helpText, callback);
      FindCommand(r, name) == FirstFree(s) &&
      r[FirstFree(s).value] == Used(NewEntry(name, argsFormat, helpText, callback))
  {
    var r := Added(s, name, argsFormat, helpText, callback);
    var i := FirstFree(s).value;
    assert Matches(r[i], name);
    assert forall j :: 0 <= j < i ==> r[j] == s[j];
  }

  /** Removing a name that was absent before an add undoes that add. */
  lemma RemoveUndoesAdd(s: seq<Slot>, name: string, argsFormat: string, helpText: string, callback: Option<Callback>)
    requires FindCommand(s, name).None? && Utf8Size(name) < NameSize
    ensures Removed(Added(s, name, argsFormat, helpText, callback), name) == s
  {
    if FirstFree(s).Some? {
      AddedThenFound(s, name, argsFormat, helpText, callback);
      var i := FirstFree(s).value;
      var r := Added(s, name, argsFormat, helpText, callback);
      assert Removed(r, name) == r[i := Free];
      assert r[i := Free] == s;
    }
  }

  /**
   * A name too long for its buffer is stored cut, so the stored entry never
   * matches it: the name stays unfound and adding it again fills another slot.
   */
  lemma LongNameAddedTwice(s: seq<Slot>, k: nat, name: string, argsFormat: string, helpText: string, callback: Option<Callback>)
    requires Utf8Size(name) >= NameSize
    requires FindCommand(s, name).None? && FirstFree(s).Some?
    requires k < |s| && k != FirstFree(s).value && s[k].Free?
    ensures var once := Added(s, name, argsFormat, helpText, callback);
      FindCommand(once, name).None? && Added(once, name, argsFormat, helpText, callback) != once
  {
    var i := FirstFree(s).value;
    var once := Added(s, name, argsFormat, helpText, callback);
    assert once == s[i := Used(NewEntry(name, argsFormat, helpText, callback))];
    assert !Matches(once[i], name);
    assert forall j :: 0 <= j < |s| && j != i ==> once[j] == s[j];
    assert FindCommand(once, name).None?;
    assert once[k].Free?;
    var i' := FirstFree(once).value;
    assert Added(once, name, argsFormat, helpText, callback)[i'].Used?;
  }

  /** In a table with unique names, removing a name makes it absent. */
  lemma RemovedIsAbsent(s: seq<Slot>, name: string)
    requires Unique(s)
    ensures FindCommand(Removed(s, name), name).None?
  {
    var r := Removed(s, name);
    if FindCommand(s, name).Some? {
      var i := FindCommand(s, name).value;
      forall j | 0 <= j < |r| ensures !Matches(r[j], name) {
        if j != i {
          assert r[j] == s[j];
          if j < i {
          } else {
            assert Matches(s[i], name);
          }
        }
      }
    }
  }

  /** Adding into a table whose first k slots are used by other names and whose slot k is free writes slot k. */
  lemma AddedAt(s: seq<Slot>, k: nat, name: string, argsFormat: string, helpText: string, callback: Option<Callback>)
    requires k < |s| && s[k].Free?
    requires forall j :: 0 <= j < k ==> s[j].Used? && s[j].cmd.name != name
    requires forall j :: k < j < |s| ==> s[j].Free?
    ensures Added(s, name, argsFormat, helpText, callback) == s[k := Used(NewEntry(name, argsFormat, helpText, callback))]
  {
    assert FindCommand(s, name).None?;
    assert FirstFree(s) == Some(k);
  }

  /** The built-in names are ASCII and fit the name buffer, so they are stored whole. */
  lemma BuiltinNamesKept()
    ensures Truncate("cmdlist", NameSize) == "cmdlist" && Truncate("credits", NameSize) == "credits"
    ensures Truncate("info", NameSize) == "info"
    ensures Truncate("For a full list of commands:", NameSize) == "For a full list of commands:"
  {
    AsciiSize("cmdlist");
    AsciiSize("credits");
    AsciiSize("info");
    AsciiSize("For a full list of commands:");
  }

  /** The first two built-in adds on a zeroed table fill slots 0 and 1. */
  lemma FirstTwoBuiltins(s: seq<Slot>)
    requires |s| >= 4 && forall j :: 0 <= j < |s| ==> s[j].Free?
    ensures Added(Added(s, "cmdlist", "", "List all commands which are accessible for you", None),
                  "credits", "", "Shows the credits of the F-DDrace mod", None) ==
      s[0 := Used(NewEntry("cmdlist", "", "List all commands which are accessible for you", None))]
       [1 := Used(NewEntry("credits", "", "Shows the credits of the F-DDrace mod", None))]
  {
    BuiltinNamesKept();
    var s1 := s[0 := Used(NewEntry("cmdlist", "", "List all commands which are accessible for you", None))];
    AddedAt(s, 0, "cmdlist", "", "List all commands which are accessible for you", None);
    assert "cmdlist"[1] != "credits"[1];
    AddedAt(s1, 1, "credits", "", "Shows the credits of the F-DDrace mod", None);
  }

  /** With slots 0 and 1 holding cmdlist and credits and the rest free, the last two adds fill slots 2 and 3. */
  lemma LastTwoBuiltins(s: seq<Slot>)
    requires |s| >= 4 && forall j :: 2 <= j < |s| ==> s[j].Free?
    requires s[0].Used? && s[0].cmd.name == "cmdlist" && s[1].Used? && s[1].cmd.name == "credits"
    ensures Added(Added(s, "info", "", "Shows info about this server", None),
                  "For a full list of commands:", "", "/cmdlist", Some(CmdList)) ==
      s[2 := Used(NewEntry("info", "", "Shows info about this server", None))]
       [3 := Used(NewEntry("For a full list of commands:", "", "/cmdlist", Some(CmdList)))]
  {
    BuiltinNamesKept();
    var s1 := s[2 := Used(NewEntry("info", "", "Shows info about this server", None))];
    AddedAt(s, 2, "info", "", "Shows info about this server", None);
    AddedAt(s1, 3, "For a full list of commands:", "", "/cmdlist", Some(CmdList));
  }

  /** Slots 0..3 hold the built-in commands in registration order and every other slot is free. */
  ghost predicate BuiltinsThenFree(r: seq<Slot>)
  {
    |r| >= 4 &&
    r[0] == Used(NewEntry("cmdlist", "", "List all commands which are accessible for you", None)) &&
    r[1] == Used(NewEntry("credits", "", "Shows the credits of the F-DDrace mod", None)) &&
    r[2] == Used(NewEntry("info", "", "Shows info about this server", None)) &&
    r[3] == Used(NewEntry("For a full list of commands:", "", "/cmdlist", Some(CmdList))) &&
    forall j :: 4 <= j < |r| ==> r[j].Free?
  }

  /** Start-up on a zeroed table fills slots 0..3 with the built-in commands. */
  lemma BuiltinsOnEmptyTable(s: seq<Slot>)
    requires |s| >= 4 && forall j :: 0 <= j < |s| ==> s[j].Free?
    ensures |WithBuiltins(s)| == |s| && BuiltinsThenFree(WithBuiltins(s))
  {
    BuiltinNamesKept();
    FirstTwoBuiltins(s);
    var s2 := s[0 := Used(NewEntry("cmdlist", "", "List all commands which are accessible for you", None))]
               [1 := Used(NewEntry("credits", "", "Shows the credits of the F-DDrace mod", None))];
    LastTwoBuiltins(s2);
    var r := s2[2 := Used(NewEntry("info", "", "Shows info about this server", None))]
               [3 := Used(NewEntry("For a full list of commands:", "", "/cmdlist", Some(CmdList)))];
    assert WithBuiltins(s) == r;
    assert BuiltinsThenFree(r);
  }

  /** A zeroed table on which the built-in commands were registered. */
  method NewTableWithBuiltins() returns (table: CommandTable)
    ensures fresh(table) && fresh(table.slots) && table.Valid()
    ensures BuiltinsThenFree(table.slots[..])
  {
    table := new CommandTable();
    ghost var zeroed := table.slots[..];
    table.OnInit();
    BuiltinsOnEmptyTable(zeroed);
  }

  /** The registry: MaxCommands slots updated in place. */
  class CommandTable {
    var slots: array<Slot>

    ghost predicate Valid()
      reads this, slots
    {
      slots.Length == MaxCommands
    }

    /** A zeroed table. */
    constructor ()
      ensures Valid() && fresh(slots)
      ensures forall j :: 0 <= j < slots.Length ==> slots[j].Free?
    {
      slots := new Slot[MaxCommands](_ => Free);
    }

    /** Registers the built-in commands. */
    method OnInit()
      requires Valid()
      modifies slots
      ensures Valid()
      ensures slots[..] == WithBuiltins(old(slots[..]))
    {
      AddCommand("cmdlist", "", "List all commands which are accessible for you", None);
      AddCommand("credits", "", "Shows the credits of the F-DDrace mod", None);
      AddCommand("info", "", "Shows info about this server", None);
      AddCommand("For a full list of commands:", "", "/cmdlist", Some(CmdList));
    }

    /** The index of the first used slot named `name`. */
    method GetCommand(name: string) returns (r: Option<nat>)
      requires Valid()
      ensures r == FindCommand(slots[..], name)
    {
      for i := 0 to slots.Length
        invariant forall j :: 0 <= j < i ==> !Matches(slots[j], name)
      {
        if slots[i].Used? && slots[i].cmd.name == name {
          return Some(i);
        }
      }
      return None;
    }

    method AddCommand(name: string, argsFormat: string, helpText: string, callback: Option<Callback>)
      requires Valid()
      modifies slots
      ensures Valid()
      ensures slots[..] == Added(old(slots[..]), name, argsFormat, helpText, callback)
    {
      var found := GetCommand(name);
      if found.Some? {
        return;
      }
      for i := 0 to slots.Length
        invariant slots[..] == old(slots[..])
        invariant forall j :: 0 <= j < i ==> slots[j].Used?
      {
        if slots[i].Free? {
          slots[i] := Used(NewEntry(name, argsFormat, helpText, callback));
          assert FirstFree(old(slots[..])) == Some(i);
          return;
        }
      }
    }

    method RemoveCommand(name: string)
      requires Valid()
      modifies slots
      ensures Valid()
      ensures slots[..] == Removed(old(slots[..]), name)
    {
      var found := GetCommand(name);
      if found.Some? {
        slots[found.value] := Free;
      }
    }

    /** The messages sent to a connecting client. */
    method OnPlayerConnect(client: int) returns (msgs: seq<Message>)
      requires Valid()
      ensures msgs == RemovalMessages(client) + InfoMessages(slots[..], client)
    {
      msgs := [
        CommandInfoRemove("all", client), CommandInfoRemove("friend", client),
        CommandInfoRemove("m", client), CommandInfoRemove("mute", client),
        CommandInfoRemove("r", client), CommandInfoRemove("team", client),
        CommandInfoRemove("whisper", client)];
      for i := 0 to slots.Length
        invariant msgs == RemovalMessages(client) + InfoMessages(slots[..i], client)
      {
        assert slots[..i + 1][..i] == slots[..i];
        if slots[i].Used? {
          msgs := msgs + [InfoOf(slots[i].cmd, client)];
        }
      }
      assert slots[..slots.Length] == slots[..];
    }
  }
}
