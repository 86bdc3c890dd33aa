/** The admin-defined ("Kyber") commands: the `commands` table, the
    in-memory `command_registry` dictionary that mirrors it, and the name
    choices offered by the `delete` and `edit` slash commands. */
module UserCommands {
  import opened Base
  import opened Text

  /** A row of the `commands` table; `name` is its primary key. */
  datatype Command = Command(name: string, description: string, response: string)

  /** What `db_command_to_lb_user_command` builds from a row: a slash
      command carrying the row's name and description (the response is
      read from the table each time the command is used). */
  datatype SlashCommand = SlashCommand(name: string, description: string)

  function ToSlash(c: Command): SlashCommand {
    SlashCommand(c.name, c.description)
  }

  /** What the handlers answer. */
  datatype Reply =
    | AlreadyExists
    | Added
    | NoSuchCommand
    | Deleted(name: string)
    | Current(name: string, description: string, response: string)
    | Updated
    | Aborted

  /** The names `add` refuses besides the stored ones. */
  const RESERVED: seq<string> := ["add", "edit", "delete"]

  /** An option counts as given unless it is None or "". */
  predicate Given(o: Option<string>) {
    o.Some? && o.value != ""
  }

  // ---------------------------------------------------------------------
  // The state: the table, the registry dictionary with its key order, the
  // two choice lists and how many times the commands were synced
  // ---------------------------------------------------------------------

  datatype Registry = Registry(
    store: map<string, Command>,
    commands: map<string, SlashCommand>,
    order: seq<string>,
    deleteChoices: seq<string>,
    editChoices: seq<string>,
    syncs: nat)

  predicate NoDups(s: seq<string>) {
    forall i, j :: 0 <= i < j < |s| ==> s[i] != s[j]
  }

  /** `s` without the occurrences of `x`, in order. */
  function Remove(s: seq<string>, x: string): (r: seq<string>)
    ensures |r| <= |s|
    ensures forall y :: y in r <==> y in s && y != x
  {
    if s == [] then []
    else
      var init := Remove(s[..|s| - 1], x);
      assert forall y :: y in s[..|s| - 1] ==> y in s;
      if s[|s| - 1] == x then init else init + [s[|s| - 1]]
  }

  lemma {:induction false} RemoveNoDups(s: seq<string>, x: string)
    requires NoDups(s)
    ensures NoDups(Remove(s, x))
  {
    if s != [] {
      var init := s[..|s| - 1];
      RemoveNoDups(init, x);
      assert s[|s| - 1] !in init by {
        forall i | 0 <= i < |init| ensures init[i] != s[|s| - 1] {
          assert init[i] == s[i];
        }
      }
    }
  }

  /** Removing the key that was just appended gives back the sequence. */
  lemma RemoveLast(s: seq<string>, x: string)
    requires x !in s
    ensures Remove(s + [x], x) == s
  {
    assert (s + [x])[..|s|] == s;
    RemoveAbsent(s, x);
  }

  lemma {:induction false} RemoveAbsent(s: seq<string>, x: string)
    requires x !in s
    ensures Remove(s, x) == s
  {
    if s != [] {
      assert s[|s| - 1] in s;
      assert forall y :: y in s[..|s| - 1] ==> y in s;
      RemoveAbsent(s[..|s| - 1], x);
      assert s == s[..|s| - 1] + [s[|s| - 1]];
    }
  }

  /** In a sequence without duplicates, removing an element cuts out its
      one position and keeps the order of the rest. */
  lemma {:induction false} RemoveAt(s: seq<string>, i: nat)
    requires NoDups(s) && i < |s|
    ensures Remove(s, s[i]) == s[..i] + s[i + 1..]
  {
    var n := |s| - 1;
    var init := s[..n];
    var x := s[i];
    assert NoDups(init);
    if i == n {
      assert x !in init by {
        forall j | 0 <= j < n ensures init[j] != x {
          assert init[j] == s[j];
        }
      }
      RemoveAbsent(init, x);
      assert s[..i] + s[i + 1..] == init;
    } else {
      assert s[n] != x;
      assert init[i] == x;
      RemoveAt(init, i);
      assert s[..i] + s[i + 1..] == init[..i] + init[i + 1..] + [s[n]];
    }
  }

  /** The dictionary's keys are exactly the names in `order`, each once:
      Python keeps a dictionary's keys in insertion order. */
  ghost predicate KeysInOrder(r: Registry) {
    (forall k :: k in r.commands <==> k in r.order) && NoDups(r.order)
  }

  /** Every row is stored under its own name. */
  ghost predicate RowsNamed(store: map<string, Command>) {
    forall k :: k in store ==> store[k].name == k
  }

  ghost predicate Consistent(r: Registry) {
    RowsNamed(r.store) && KeysInOrder(r)
  }

  /** The registry mirrors the table: one slash command per row, built
      from that row. */
  ghost predicate Valid(r: Registry) {
    Consistent(r)
    && (forall k :: k in r.commands <==> k in r.store)
    && (forall k :: k in r.commands ==> r.commands[k] == ToSlash(r.store[k]))
  }

  /** `command_registry[k] = v`: a new key goes last, an existing one keeps
      its place. */
  function Put(r: Registry, k: string, v: SlashCommand): Registry {
    r.(commands := r.commands[k := v], order := if k in r.commands then r.order else r.order + [k])
  }

  /** `command_registry.pop(k)` on a present key. */
  function Pop(r: Registry, k: string): Registry {
    if k in r.commands then r.(commands := r.commands - {k}, order := Remove(r.order, k)) else r
  }

  lemma PutConsistent(r: Registry, k: string, v: SlashCommand)
    requires KeysInOrder(r)
    ensures KeysInOrder(Put(r, k, v))
    ensures Put(r, k, v).commands.Keys == r.commands.Keys + {k}
  {
  }

  /** Popping a key drops it from the dictionary and cuts its one place
      out of the insertion order, leaving the other keys in their order;
      popping an absent key changes nothing. */
  lemma PopConsistent(r: Registry, k: string)
    requires KeysInOrder(r)
    ensures KeysInOrder(Pop(r, k))
    ensures Pop(r, k).commands.Keys == r.commands.Keys - {k}
    ensures k in r.commands ==> exists i :: 0 <= i < |r.order| && r.order[i] == k
                                          && Pop(r, k).order == r.order[..i] + r.order[i + 1..]
    ensures k !in r.commands ==> Pop(r, k) == r
  {
    RemoveNoDups(r.order, k);
    if k in r.commands {
      var i :| 0 <= i < |r.order| && r.order[i] == k;
      RemoveAt(r.order, i);
    }
  }

  /** `command_options_updater`: both choice lists become the registry's
      keys, and the commands are synced when asked. */
  function Refreshed(r: Registry, sync: bool): Registry {
    r.(deleteChoices := r.order, editChoices := r.order, syncs := r.syncs + if sync then 1 else 0)
  }

  /** After a refresh, each choice list holds every registry key exactly once. */
  lemma ChoicesAreKeys(r: Registry, sync: bool)
    requires KeysInOrder(r)
    ensures var s := Refreshed(r, sync);
      s.deleteChoices == s.editChoices && NoDups(s.deleteChoices)
      && (forall k :: k in s.deleteChoices <==> k in s.commands)
    ensures Refreshed(r, sync).syncs == r.syncs + (if sync then 1 else 0)
  {
  }

  // ---------------------------------------------------------------------
  // add
  // ---------------------------------------------------------------------

  /** `add_command`: the lower-cased name is refused when reserved or
      stored; otherwise the row is stored, registered last, and the
      choices are refreshed and synced. */
  function AfterAdd(r: Registry, name: string, description: string, response: string): (Registry, Reply) {
    var key := Lower(name);
    if key in RESERVED || key in r.store then (r, AlreadyExists)
    else
      var c := Command(key, description, response);
      (Refreshed(Put(r.(store := r.store[key := c]), key, ToSlash(c)), true), Added)
  }

  lemma AddSpec(r: Registry, name: string, description: string, response: string)
    requires Valid(r)
    ensures var (s, reply) := AfterAdd(r, name, description, response);
      var key := Lower(name);
      Valid(s)
      && (key in RESERVED || key in r.store ==> s == r && reply == AlreadyExists)
      && (key !in RESERVED && key !in r.store ==>
            reply == Added
            && s.store == r.store[key := Command(key, description, response)]
            && s.commands.Keys == r.commands.Keys + {key}
            && (forall k :: k in r.commands ==> s.commands[k] == r.commands[k])
            && s.order == r.order + [key]
            && s.deleteChoices == s.order && s.editChoices == s.order && s.syncs == r.syncs + 1)
  {
    var key := Lower(name);
    if key !in RESERVED && key !in r.store {
      var c := Command(key, description, response);
      PutConsistent(r.(store := r.store[key := c]), key, ToSlash(c));
    }
  }

  // ---------------------------------------------------------------------
  // delete
  // ---------------------------------------------------------------------

  /** `del_command`: the lower-cased name is popped from the registry (a
      missing one is reported) and its row deleted; the choices are
      refreshed and synced either way. */
  function AfterDelete(r: Registry, name: string): (Registry, Reply) {
    var key := Lower(name);
    if key !in r.commands then (Refreshed(r, true), NoSuchCommand)
    else (Refreshed(Pop(r, key).(store := r.store - {key}), true), Deleted(key))
  }

  lemma DeleteSpec(r: Registry, name: string)
    requires Valid(r)
    ensures var (s, reply) := AfterDelete(r, name);
      var key := Lower(name);
      Valid(s) && s.deleteChoices == s.order && s.editChoices == s.order && s.syncs == r.syncs + 1
      && (key !in r.commands ==>
            reply == NoSuchCommand && s.store == r.store && s.commands == r.commands && s.order == r.order)
      && (key in r.commands ==>
            reply == Deleted(key)
            && s.store == r.store - {key} && s.commands == r.commands - {key}
            && s.order == Remove(r.order, key))
  {
    PopConsistent(r, Lower(name));
  }

  /** Adding a fresh command and deleting it again restores the table,
      the registry and its key order. */
  lemma AddThenDelete(r: Registry, name: string, description: string, response: string)
    requires KeysInOrder(r)
    requires Lower(name) !in RESERVED && Lower(name) !in r.store && Lower(name) !in r.commands
    ensures var s := AfterDelete(AfterAdd(r, name, description, response).0, name).0;
      s.store == r.store && s.commands == r.commands && s.order == r.order
  {
    var key := Lower(name);
    var c := Command(key, description, response);
    var a := Refreshed(Put(r.(store := r.store[key := c]), key, ToSlash(c)), true);
    assert AfterAdd(r, name, description, response).0 == a;
    assert key !in r.order;
    assert a.order == r.order + [key];
    var s := Refreshed(Pop(a, key).(store := a.store - {key}), true);
    assert AfterDelete(a, name).0 == s;
    assert s.store == r.store;
    assert s.commands == r.commands;
    RemoveLast(r.order, key);
  }

  // ---------------------------------------------------------------------
  // edit
  // ---------------------------------------------------------------------

  /** The lower-cased new name, when one is given. */
  function NewKey(newName: Option<string>): Option<string> {
    if Given(newName) then Some(Lower(newName.value)) else None
  }

  /** The row once `edit_command` has applied every given change. */
  function Edited(c: Command, newKey: Option<string>, newResponse: Option<string>, newDescription: Option<string>): Command {
    Command(
      if newKey.Some? then newKey.value else c.name,
      if Given(newDescription) then newDescription.value else c.description,
      if Given(newResponse) then newResponse.value else c.response)
  }

  /** The rename step of `edit_command`: the row `c` moves to `target`
      in the table, its registry entry is popped and the renamed command
      registered under `target`. */
  function RenameStep(r: Registry, c: Command, target: string): Registry {
    var renamed := c.(name := target);
    Put(Pop(r.(store := (r.store - {c.name})[target := renamed]), c.name), target, ToSlash(renamed))
  }

  /** The response step: only the row changes. */
  function ResponseStep(r: Registry, c: Command): Registry {
    r.(store := r.store[c.name := c])
  }

  /** The description step: the row changes and its command is popped and
      registered again. */
  function DescriptionStep(r: Registry, c: Command): Registry {
    Put(Pop(r.(store := r.store[c.name := c]), c.name), c.name, ToSlash(c))
  }

  /** `edit_command`: a missing row aborts the handler (`fetchone()` is
      None); nothing given only reports the row; a rename onto a name that
      another row holds is refused; otherwise the rename, response and
      description steps run for the options given, and a change of name
      or description refreshes and syncs the choices. */
  function AfterEdit(r: Registry, name: string, newName: Option<string>, newResponse: Option<string>, newDescription: Option<string>): (Registry, Reply) {
    var key := Lower(name);
    if key !in r.store then (r, Aborted)
    else
      var c := r.store[key];
      if !Given(newName) && !Given(newResponse) && !Given(newDescription) then
        (r, Current(c.name, c.description, c.response))
      else if Given(newName) && Lower(newName.value) != c.name && Lower(newName.value) in r.store then
        (r, AlreadyExists)
      else
        var steps := EditSteps(r, c, NewKey(newName), newResponse, newDescription);
        (if Given(newName) || Given(newDescription) then Refreshed(steps, true) else steps, Updated)
  }

  /** The rename, response and description steps, each run when its
      option is given, on the row `c`. */
  function EditSteps(r: Registry, c: Command, newKey: Option<string>, newResponse: Option<string>, newDescription: Option<string>): Registry {
    var c1 := if newKey.Some? then c.(name := newKey.value) else c;
    var r1 := if newKey.Some? then RenameStep(r, c, c1.name) else r;
    var c2 := if Given(newResponse) then c1.(response := newResponse.value) else c1;
    var r2 := if Given(newResponse) then ResponseStep(r1, c2) else r1;
    var c3 := if Given(newDescription) then c2.(description := newDescription.value) else c2;
    if Given(newDescription) then DescriptionStep(r2, c3) else r2
  }

  lemma RenameStepSpec(r: Registry, c: Command, target: string)
    requires c.name in r.commands
    requires target == c.name || target !in r.commands
    ensures var s := RenameStep(r, c, target);
      s.store == (r.store - {c.name})[target := c.(name := target)]
      && s.commands == (r.commands - {c.name})[target := ToSlash(c.(name := target))]
      && s.order == Remove(r.order, c.name) + [target]
      && s.deleteChoices == r.deleteChoices && s.editChoices == r.editChoices && s.syncs == r.syncs
  {
  }

  lemma DescriptionStepSpec(r: Registry, c: Command)
    requires c.name in r.commands
    ensures var s := DescriptionStep(r, c);
      s.store == r.store[c.name := c]
      && s.commands == (r.commands - {c.name})[c.name := ToSlash(c)]
      && s.order == Remove(r.order, c.name) + [c.name]
      && s.deleteChoices == r.deleteChoices && s.editChoices == r.editChoices && s.syncs == r.syncs
  {
  }

  /** Replacing the row under `key` by `e`, under `key` or a free name,
      and its registry entry likewise, keeps the registry mirroring the
      table, whether the key keeps its place or moves to the end. */
  lemma ReplacedValid(r: Registry, key: string, e: Command, s: Registry)
    requires Valid(r) && key in r.store
    requires e.name == key || e.name !in r.store
    requires s.store == (r.store - {key})[e.name := e]
    requires s.commands == (r.commands - {key})[e.name := ToSlash(e)]
    requires s.order == Remove(r.order, key) + [e.name] || (e.name == key && s.order == r.order)
    ensures Valid(s)
  {
    RemoveNoDups(r.order, key);
  }

  /** What an edit promises: a missing row or an empty edit changes
      nothing and a rename onto another row's name is refused; otherwise
      the old key is gone, the new one holds the edited row in both the
      table and the registry, every other entry is kept, and a changed
      name or description moves the key to the end of the choices. */
  lemma EditSpec(r: Registry, name: string, newName: Option<string>, newResponse: Option<string>, newDescription: Option<string>)
    requires Valid(r)
    ensures var (s, reply) := AfterEdit(r, name, newName, newResponse, newDescription);
      var key := Lower(name);
      Valid(s)
      && (key !in r.store ==> s == r && reply == Aborted)
      && (key in r.store && !Given(newName) && !Given(newResponse) && !Given(newDescription) ==>
            s == r && reply == Current(key, r.store[key].description, r.store[key].response))
      && (key in r.store && (Given(newName) || Given(newResponse) || Given(newDescription)) ==>
            var e := Edited(r.store[key], NewKey(newName), newResponse, newDescription);
            (e.name != key && e.name in r.store ==> s == r && reply == AlreadyExists)
            && (e.name == key || e.name !in r.store ==>
                  reply == Updated
                  && s.store == (r.store - {key})[e.name := e]
                  && s.commands == (r.commands - {key})[e.name := ToSlash(e)]
                  && (Given(newName) || Given(newDescription) ==>
                        s.order == Remove(r.order, key) + [e.name] && s.deleteChoices == s.order && s.editChoices == s.order
                        && s.syncs == r.syncs + 1)
                  && (!Given(newName) && !Given(newDescription) ==>
                        s.order == r.order && s.syncs == r.syncs)))
  {
    var key := Lower(name);
    if key in r.store && (Given(newName) || Given(newResponse) || Given(newDescription)) {
      var e := Edited(r.store[key], NewKey(newName), newResponse, newDescription);
      if e.name == key || e.name !in r.store {
        EditChanges(r, name, newName, newResponse, newDescription);
      }
    }
  }

  lemma EditChanges(r: Registry, name: string, newName: Option<string>, newResponse: Option<string>, newDescription: Option<string>)
    requires Valid(r) && Lower(name) in r.store
    requires Given(newName) || Given(newResponse) || Given(newDescription)
    requires var e := Edited(r.store[Lower(name)], NewKey(newName), newResponse, newDescription);
      e.name == Lower(name) || e.name !in r.store
    ensures var (s, reply) := AfterEdit(r, name, newName, newResponse, newDescription);
      var key := Lower(name);
      var e := Edited(r.store[key], NewKey(newName), newResponse, newDescription);
      Valid(s) && reply == Updated
      && s.store == (r.store - {key})[e.name := e]
      && s.commands == (r.commands - {key})[e.name := ToSlash(e)]
      && (Given(newName) || Given(newDescription) ==>
            s.order == Remove(r.order, key) + [e.name] && s.deleteChoices == s.order && s.editChoices == s.order && s.syncs == r.syncs + 1)
      && (!Given(newName) && !Given(newDescription) ==> s.order == r.order && s.syncs == r.syncs)
  {
    var key := Lower(name);
    var c := r.store[key];
    assert c.name == key;
    var e := Edited(c, NewKey(newName), newResponse, newDescription);
    EditStepsSpec(r, c, NewKey(newName), newResponse, newDescription);
    var steps := EditSteps(r, c, NewKey(newName), newResponse, newDescription);
    if !Given(newName) && !Given(newDescription) {
      assert r.commands == (r.commands - {key})[e.name := ToSlash(e)];
    }
    ReplacedValid(r, key, e, steps);
  }

  lemma EditStepsSpec(r: Registry, c: Command, newKey: Option<string>, newResponse: Option<string>, newDescription: Option<string>)
    requires c.name in r.commands && c.name in r.store && r.store[c.name] == c
    requires newKey.Some? ==> newKey.value == c.name || (newKey.value !in r.commands && newKey.value !in r.order)
    ensures var s := EditSteps(r, c, newKey, newResponse, newDescription);
      var e := Edited(c, newKey, newResponse, newDescription);
      var moved := newKey.Some? || Given(newDescription);
      s.store == (r.store - {c.name})[e.name := e]
      && s.commands == (if moved then (r.commands - {c.name})[e.name := ToSlash(e)] else r.commands)
      && s.order == (if moved then Remove(r.order, c.name) + [e.name] else r.order)
      && s.deleteChoices == r.deleteChoices && s.editChoices == r.editChoices && s.syncs == r.syncs
  {
    if newKey.Some? {
      EditStepsRenamed(r, c, newKey, newResponse, newDescription);
    } else {
      EditStepsKept(r, c, newKey, newResponse, newDescription);
    }
  }

  lemma EditStepsRenamed(r: Registry, c: Command, newKey: Option<string>, newResponse: Option<string>, newDescription: Option<string>)
    requires c.name in r.commands && c.name in r.store && r.store[c.name] == c
    requires newKey.Some? ==> newKey.value == c.name || (newKey.value !in r.commands && newKey.value !in r.order)
    requires newKey.Some?
    ensures var s := EditSteps(r, c, newKey, newResponse, newDescription);
      var e := Edited(c, newKey, newResponse, newDescription);
      var moved := newKey.Some? || Given(newDescription);
      s.store == (r.store - {c.name})[e.name := e]
      && s.commands == (if moved then (r.commands - {c.name})[e.name := ToSlash(e)] else r.commands)
      && s.order == (if moved then Remove(r.order, c.name) + [e.name] else r.order)
      && s.deleteChoices == r.deleteChoices && s.editChoices == r.editChoices && s.syncs == r.syncs
  {
    var e := Edited(c, newKey, newResponse, newDescription);
    var c1 := c.(name := newKey.value);
    RenameStepSpec(r, c, c1.name);
    var r1 := RenameStep(r, c, c1.name);
    var c2 := if Given(newResponse) then c1.(response := newResponse.value) else c1;
    var r2 := if Given(newResponse) then ResponseStep(r1, c2) else r1;
    assert r2.store == (r.store - {c.name})[c1.name := c2];
    if Given(newDescription) {
      DescriptionStepSpec(r2, e);
      assert e.name !in Remove(r.order, c.name);
      RemoveLast(Remove(r.order, c.name), e.name);
    }
  }

  lemma EditStepsKept(r: Registry, c: Command, newKey: Option<string>, newResponse: Option<string>, newDescription: Option<string>)
    requires c.name in r.commands && c.name in r.store && r.store[c.name] == c
    requires newKey.Some? ==> newKey.value == c.name || (newKey.value !in r.commands && newKey.value !in r.order)
    requires newKey.None?
    ensures var s := EditSteps(r, c, newKey, newResponse, newDescription);
      var e := Edited(c, newKey, newResponse, newDescription);
      var moved := newKey.Some? || Given(newDescription);
      s.store == (r.store - {c.name})[e.name := e]
      && s.commands == (if moved then (r.commands - {c.name})[e.name := ToSlash(e)] else r.commands)
      && s.order == (if moved then Remove(r.order, c.name) + [e.name] else r.order)
      && s.deleteChoices == r.deleteChoices && s.editChoices == r.editChoices && s.syncs == r.syncs
  {
    var e := Edited(c, newKey, newResponse, newDescription);
    var c2 := if Given(newResponse) then c.(response := newResponse.value) else c;
    var r2 := if Given(newResponse) then ResponseStep(r, c2) else r;
    assert r2.store == r.store[c.name := c2];
    if Given(newDescription) {
      DescriptionStepSpec(r2, e);
    }
  }

  /** `edit_command` as written: a rename onto a name that another row
      holds is not refused. The registry is updated inside the
      transaction, in the rename block, before its commit fails on the table's
      primary key, so the table keeps both rows while the registry has
      lost the old name and overwritten the other row's command; the
      exception then ends the handler. */
  function AfterEditAsWritten(r: Registry, name: string, newName: Option<string>, newResponse: Option<string>, newDescription: Option<string>): (Registry, Reply) {
    var key := Lower(name);
    if key in r.store && Given(newName) && Lower(newName.value) != r.store[key].name && Lower(newName.value) in r.store then
      (RenameStep(r, r.store[key], Lower(newName.value)).(store := r.store), Aborted)
    else
      AfterEdit(r, name, newName, newResponse, newDescription)
  }

  /** The unguarded rename breaks the registry's mirroring of the table:
      the old name is still a row but no longer a command, and the other
      row's command now carries the renamed row's description. */
  lemma UnguardedRenameDesyncs(r: Registry, name: string, newName: Option<string>, newResponse: Option<string>, newDescription: Option<string>)
    requires Valid(r) && Lower(name) in r.store && Given(newName)
    requires Lower(newName.value) != Lower(name) && Lower(newName.value) in r.store
    ensures var (s, reply) := AfterEditAsWritten(r, name, newName, newResponse, newDescription);
      var target := Lower(newName.value);
      reply == Aborted && !Valid(s)
      && Lower(name) in s.store && Lower(name) !in s.commands
      && s.commands[target] == SlashCommand(target, r.store[Lower(name)].description)
      && s.store[target] == r.store[target]
  {
    var key := Lower(name);
    var c := r.store[key];
    assert c.name == key;
  }

  // ---------------------------------------------------------------------
  // startup
  // ---------------------------------------------------------------------

  /** The registry after registering `rows` one by one. */
  function Loaded(r: Registry, rows: seq<Command>): Registry {
    if rows == [] then r
    else
      var last := rows[|rows| - 1];
      Put(Loaded(r, rows[..|rows| - 1]), last.name, ToSlash(last))
  }

  /** `register_commands_on_startup`: every row the `select` returns is
      registered, then the choices are refreshed without a sync. */
  function AfterStartup(r: Registry, rows: seq<Command>): Registry {
    Refreshed(Loaded(r, rows), false)
  }

  /** `rows` is what `select(Commands)` returns: the table's rows, each once. */
  ghost predicate SelectsTable(rows: seq<Command>, store: map<string, Command>) {
    (forall i :: 0 <= i < |rows| ==> rows[i].name in store && store[rows[i].name] == rows[i])
    && (forall k :: k in store ==> store[k] in rows)
  }

  /** The names of `rows`, in order. */
  function Names(rows: seq<Command>): (names: seq<string>)
    ensures |names| == |rows|
    ensures forall i :: 0 <= i < |rows| ==> names[i] == rows[i].name
  {
    if rows == [] then [] else Names(rows[..|rows| - 1]) + [rows[|rows| - 1].name]
  }

  /** Registering rows keeps the keys in order and adds exactly their names. */
  lemma {:induction false} LoadedKeys(r: Registry, rows: seq<Command>)
    requires KeysInOrder(r)
    ensures var s := Loaded(r, rows);
      KeysInOrder(s) && s.store == r.store && s.syncs == r.syncs
      && (forall k :: k in s.commands <==> k in r.commands || k in Names(rows))
  {
    if rows != [] {
      var init := rows[..|rows| - 1];
      LoadedKeys(r, init);
      PutConsistent(Loaded(r, init), rows[|rows| - 1].name, ToSlash(rows[|rows| - 1]));
      assert Names(rows) == Names(init) + [rows[|rows| - 1].name];
    }
  }

  /** When every row is the table's row for its name, each newly
      registered key holds the command built from that row. */
  lemma {:induction false} LoadedValues(r: Registry, rows: seq<Command>)
    requires forall i :: 0 <= i < |rows| ==> rows[i].name in r.store && r.store[rows[i].name] == rows[i]
    ensures var s := Loaded(r, rows);
      forall k :: k in s.commands && k !in r.commands ==> k in r.store && s.commands[k] == ToSlash(r.store[k])
  {
    if rows != [] {
      var init := rows[..|rows| - 1];
      var last := rows[|rows| - 1];
      assert forall i :: 0 <= i < |init| ==> init[i] == rows[i];
      LoadedValues(r, init);
      assert r.store[last.name] == last;
    }
  }

  /** Starting from an empty registry, startup leaves the registry
      mirroring the table and both choice lists holding its names. */
  lemma StartupMirrorsTable(r: Registry, rows: seq<Command>)
    requires Consistent(r) && r.commands == map[] && r.order == []
    requires SelectsTable(rows, r.store)
    ensures var s := AfterStartup(r, rows);
      Valid(s) && s.deleteChoices == s.order && s.editChoices == s.order && s.syncs == r.syncs
      && s.commands.Keys == r.store.Keys
  {
    LoadedKeys(r, rows);
    LoadedValues(r, rows);
    var l := Loaded(r, rows);
    forall k
      ensures k in l.commands <==> k in r.store
    {
      if k in r.store {
        assert r.store[k] in rows;
        var i :| 0 <= i < |rows| && rows[i] == r.store[k];
        assert Names(rows)[i] == k;
      }
      if k in Names(rows) {
        var i :| 0 <= i < |rows| && Names(rows)[i] == k;
        assert rows[i].name == k;
      }
    }
  }

  // ---------------------------------------------------------------------
  // The module's state and its handlers
  // ---------------------------------------------------------------------

  /** The `commands` table, the module-level `command_registry` with its
      key order, the `name` choices of `delete` and `edit`, and the
      number of command syncs requested. */
  class CommandRegistry {
    var store: map<string, Command>
    var commands: map<string, SlashCommand>
    var order: seq<string>
    var deleteChoices: seq<string>
    var editChoices: seq<string>
    var syncs: nat

    function View(): Registry
      reads this
    {
      Registry(store, commands, order, deleteChoices, editChoices, syncs)
    }

    /** The module as imported, over a table holding `table`: the
        registry is empty, and so are the choice lists built from it. */
    constructor(table: map<string, Command>)
      ensures View() == Registry(table, map[], [], [], [], 0)
    {
      store := table;
      commands := map[];
      order := [];
      deleteChoices := [];
      editChoices := [];
      syncs := 0;
    }

    /** `command_registry[k] = v`. */
    method SetItem(k: string, v: SlashCommand)
      modifies this
      ensures View() == Put(old(View()), k, v)
    {
      if k !in commands {
        order := order + [k];
      }
      commands := commands[k := v];
    }

    /** `command_registry.pop(k)`: None stands for the KeyError. */
    method PopItem(k: string) returns (v: Option<SlashCommand>)
      modifies this
      ensures v == if k in old(commands) then Some(old(commands)[k]) else None
      ensures View() == Pop(old(View()), k)
    {
      if k in commands {
        v := Some(commands[k]);
        commands := commands - {k};
        order := Remove(order, k);
      } else {
        v := None;
      }
    }

    /** `command_options_updater`. */
    method CommandOptionsUpdater(sync: bool)
      modifies this
      ensures View() == Refreshed(old(View()), sync)
    {
      deleteChoices := order;
      editChoices := order;
      if sync {
        syncs := syncs + 1;
      }
    }

    /** `add_command`. */
    method AddCommand(name: string, description: string, response: string) returns (reply: Reply)
      modifies this
      ensures (View(), reply) == AfterAdd(old(View()), name, description, response)
    {
      var key := Lower(name);
      if key in RESERVED || key in store {
        return AlreadyExists;
      }
      var command := Command(key, description, response);
      store := store[key := command];
      SetItem(key, ToSlash(command));
      CommandOptionsUpdater(true);
      reply := Added;
    }

    /** `del_command`. */
    method DelCommand(name: string) returns (reply: Reply)
      modifies this
      ensures (View(), reply) == AfterDelete(old(View()), name)
    {
      var key := Lower(name);
      var popped := PopItem(key);
      if popped.None? {
        reply := NoSuchCommand;
      } else {
        store := store - {key};
        reply := Deleted(key);
      }
      CommandOptionsUpdater(true);
    }

    /** The rename block of `edit_command`: the row moves
        to `target`, its command is popped and the renamed one registered. */
    method RenameCommand(command: Command, target: string)
      modifies this
      ensures View() == RenameStep(old(View()), command, target)
    {
      var renamed := command.(name := target);
      store := (store - {command.name})[target := renamed];
      var popped := PopItem(command.name);
      SetItem(target, ToSlash(renamed));
    }

    /** The description block of `edit_command`. */
    method DescribeCommand(command: Command)
      modifies this
      ensures View() == DescriptionStep(old(View()), command)
    {
      store := store[command.name := command];
      var popped := PopItem(command.name);
      SetItem(command.name, ToSlash(command));
    }

    /** `edit_command`, refusing a rename onto another row's name. */
    method EditCommand(name: string, newName: Option<string>, newResponse: Option<string>, newDescription: Option<string>)
      returns (reply: Reply)
      requires Valid(View())
      modifies this
      ensures (View(), reply) == AfterEdit(old(View()), name, newName, newResponse, newDescription)
    {
      var key := Lower(name);
      if key !in store {
        return Aborted;
      }
      var command := store[key];
      if !Given(newName) && !Given(newResponse) && !Given(newDescription) {
        return Current(command.name, command.description, command.response);
      }
      if Given(newName) {
        var target := Lower(newName.value);
        if target != command.name && target in store {
          return AlreadyExists;
        }
        RenameCommand(command, target);
        command := command.(name := target);
      }
      if Given(newResponse) {
        command := command.(response := newResponse.value);
        store := store[command.name := command];
      }
      if Given(newDescription) {
        command := command.(description := newDescription.value);
        DescribeCommand(command);
      }
      if Given(newName) || Given(newDescription) {
        CommandOptionsUpdater(true);
      }
      reply := Updated;
    }

    /** `register_commands_on_startup`, where `rows` is what
        `select(Commands)` returns. */
    method RegisterCommandsOnStartup(rows: seq<Command>)
      modifies this
      ensures View() == AfterStartup(old(View()), rows)
    {
      var i := 0;
      while i < |rows|
        invariant 0 <= i <= |rows|
        invariant View() == Loaded(old(View()), rows[..i])
      {
        SetItem(rows[i].name, ToSlash(rows[i]));
        assert rows[..i + 1][..i] == rows[..i];
        i := i + 1;
      }
      assert rows[..i] == rows;
      CommandOptionsUpdater(false);
    }
  }
}
