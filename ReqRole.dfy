/**
 * `cogs/reqrole.py`: custom role commands. Administrators map a custom
 * name to one or more roles of their server; afterwards `.<name> @member`,
 * sent by an administrator or a holder of the server's required role,
 * toggles those roles on the member.
 *
 * The MongoDB collections are fields of the cog: `reqrole` as a map from
 * server to role, `custom_roles` as the sequence of its documents in
 * insertion order. Discord state (the server's roles, the member's roles)
 * comes in as parameters, and the new roles of the member come out.
 */
module ReqRole {
  import opened Common

  /** A `custom_roles` document. */
  datatype Mapping = Mapping(guild: int, name: string, role: int, description: Option<string>)

  /** What `get_all_custom_roles` keeps of a document. */
  datatype Entry = Entry(role: int, description: Option<string>)

  predicate Under(d: Mapping, g: int, key: string)
  {
    d.guild == g && d.name == key
  }

  // ---------------------------------------------------------------------------
  // Queries and updates of `custom_roles`
  // ---------------------------------------------------------------------------

  /** `get_custom_roles` on a lower-cased name: the mapped role ids, in document order. */
  function Ids(docs: seq<Mapping>, g: int, key: string): (r: seq<int>)
    ensures |r| <= |docs|
    ensures forall x :: x in r <==> exists d :: d in docs && Under(d, g, key) && d.role == x
  {
    if docs == [] then []
    else
      var last := docs[|docs| - 1];
      Ids(docs[..|docs| - 1], g, key) + (if Under(last, g, key) then [last.role] else [])
  }

  lemma {:induction false} IdsAppend(a: seq<Mapping>, b: seq<Mapping>, g: int, key: string)
    ensures Ids(a + b, g, key) == Ids(a, g, key) + Ids(b, g, key)
    decreases |b|
  {
    if b == [] {
      assert a + b == a;
    } else {
      var b' := b[..|b| - 1];
      assert (a + b)[..|a + b| - 1] == a + b';
      IdsAppend(a, b', g, key);
    }
  }

  /** `delete_many` on a server and a lower-cased name. */
  function Drop(docs: seq<Mapping>, g: int, key: string): (r: seq<Mapping>)
    ensures |r| <= |docs|
    ensures forall d :: d in r <==> d in docs && !Under(d, g, key)
  {
    if docs == [] then []
    else
      var last := docs[|docs| - 1];
      Drop(docs[..|docs| - 1], g, key) + (if Under(last, g, key) then [] else [last])
  }

  /** Every stored name is lower case, as the commands store them. */
  predicate AllLower(docs: seq<Mapping>)
  {
    forall i :: 0 <= i < |docs| ==> Lower(docs[i].name) == docs[i].name
  }

  /** Replacing or appending a document with a lower-case name keeps every name lower case. */
  lemma PutLower(docs: seq<Mapping>, k: nat, d: Mapping)
    requires AllLower(docs) && k <= |docs| && Lower(d.name) == d.name
    ensures k < |docs| ==> AllLower(docs[k := d])
    ensures AllLower(docs + [d])
  {
    assert forall i :: 0 <= i < |docs| ==> (docs + [d])[i] == docs[i];
  }

  lemma AppendLower(a: seq<Mapping>, b: seq<Mapping>)
    requires AllLower(a) && AllLower(b)
    ensures AllLower(a + b)
  {
    forall i | 0 <= i < |a + b| ensures Lower((a + b)[i].name) == (a + b)[i].name {
      if i >= |a| {
        assert (a + b)[i] == b[i - |a|];
      }
    }
  }

  lemma DropLower(docs: seq<Mapping>, g: int, key: string)
    requires AllLower(docs)
    ensures AllLower(Drop(docs, g, key))
  {
    var r := Drop(docs, g, key);
    forall i | 0 <= i < |r| ensures Lower(r[i].name) == r[i].name {
      assert r[i] in r;
      var j :| 0 <= j < |docs| && docs[j] == r[i];
    }
  }

  /** `delete_many` empties the name, leaves every other name as it was, and deletes as many documents as the name had. */
  lemma {:induction false} DropIds(docs: seq<Mapping>, g: int, key: string, g2: int, key2: string)
    ensures Ids(Drop(docs, g, key), g2, key2) == if g2 == g && key2 == key then [] else Ids(docs, g2, key2)
    ensures |Drop(docs, g, key)| + |Ids(docs, g, key)| == |docs|
    decreases |docs|
  {
    if docs != [] {
      var init := docs[..|docs| - 1];
      var last := docs[|docs| - 1];
      DropIds(init, g, key, g2, key2);
      if Under(last, g, key) {
        assert Drop(docs, g, key) == Drop(init, g, key);
      } else {
        var r := Drop(init, g, key) + [last];
        assert Drop(docs, g, key) == r;
        assert r[..|r| - 1] == Drop(init, g, key);
      }
    }
  }

  /** The documents `setup_multi_role` inserts, one per role, without description. */
  function Docs(g: int, key: string, roles: seq<int>): (r: seq<Mapping>)
    ensures |r| == |roles|
    ensures forall i :: 0 <= i < |r| ==> r[i] == Mapping(g, key, roles[i], None)
  {
    seq(|roles|, i requires 0 <= i < |roles| => Mapping(g, key, roles[i], None))
  }

  /** The inserted documents map the name to exactly the given roles, in order, and no other name to anything. */
  lemma {:induction false} DocsIds(g: int, key: string, roles: seq<int>, g2: int, key2: string)
    ensures Ids(Docs(g, key, roles), g2, key2) == if g2 == g && key2 == key then roles else []
    decreases |roles|
  {
    if roles != [] {
      var init := roles[..|roles| - 1];
      DocsIds(g, key, init, g2, key2);
      assert Docs(g, key, roles)[..|roles| - 1] == Docs(g, key, init);
    }
  }

  /** The documents with the one at `k` deleted. */
  function RemoveAt(docs: seq<Mapping>, k: nat): (r: seq<Mapping>)
    requires k < |docs|
    ensures |r| == |docs| - 1
    ensures forall j :: 0 <= j < |r| ==> r[j] == if j < k then docs[j] else docs[j + 1]
  {
    docs[..k] + docs[k + 1..]
  }

  /** Rewriting a document's description leaves every name's roles as they were. */
  lemma IdsReplace(docs: seq<Mapping>, k: nat, d: Mapping, g: int, key: string)
    requires k < |docs| && docs[k].guild == d.guild && docs[k].name == d.name && docs[k].role == d.role
    ensures Ids(docs[k := d], g, key) == Ids(docs, g, key)
  {
    var r := docs[k := d];
    IdsRemoveAt(docs, k, g, key);
    IdsRemoveAt(r, k, g, key);
    assert r[..k] == docs[..k];
    assert r[k + 1..] == docs[k + 1..];
  }

  /** Deleting one document takes its role out of its own name's list at that place and changes no other name. */
  lemma IdsRemoveAt(docs: seq<Mapping>, k: nat, g: int, key: string)
    requires k < |docs|
    ensures Ids(docs, g, key) == Ids(docs[..k], g, key) + (if Under(docs[k], g, key) then [docs[k].role] else []) + Ids(docs[k + 1..], g, key)
    ensures Ids(RemoveAt(docs, k), g, key) == Ids(docs[..k], g, key) + Ids(docs[k + 1..], g, key)
  {
    assert docs == docs[..k] + [docs[k]] + docs[k + 1..];
    IdsAppend(docs[..k] + [docs[k]], docs[k + 1..], g, key);
    IdsAppend(docs[..k], [docs[k]], g, key);
    assert [docs[k]][..0] == [];
    IdsAppend(docs[..k], docs[k + 1..], g, key);
  }

  /** A role no document before `n` maps the name to is not among the name's roles up to `n`. */
  lemma RoleAbsent(docs: seq<Mapping>, n: nat, g: int, key: string, r: int)
    requires n <= |docs|
    requires forall j :: 0 <= j < n ==> !(Under(docs[j], g, key) && docs[j].role == r)
    ensures r !in Ids(docs[..n], g, key)
  {
    forall d | d in docs[..n]
      ensures !(Under(d, g, key) && d.role == r)
    {
      var j :| 0 <= j < n && docs[..n][j] == d;
      assert docs[j] == d;
    }
  }

  /** The names of a server's documents. */
  function Names(docs: seq<Mapping>, g: int): set<string>
  {
    set d | d in docs && d.guild == g :: d.name
  }

  lemma NamesSnoc(docs: seq<Mapping>, d: Mapping, g: int)
    ensures Names(docs + [d], g) == Names(docs, g) + (if d.guild == g then {d.name} else {})
  {
    forall n | n in Names(docs + [d], g)
      ensures n in Names(docs, g) + (if d.guild == g then {d.name} else {})
    {
      var x :| x in docs + [d] && x.guild == g && x.name == n;
      if x != d {
        assert x in docs;
      }
    }
  }

  /** The entries of a server's documents under a name, in document order. */
  function Entries(docs: seq<Mapping>, g: int, key: string): (r: seq<Entry>)
    ensures |r| <= |docs|
    ensures r == [] <==> forall d :: d in docs ==> !Under(d, g, key)
  {
    if docs == [] then []
    else
      var last := docs[|docs| - 1];
      var init := docs[..|docs| - 1];
      assert forall d :: d in docs <==> d in init || d == last;
      Entries(init, g, key) + (if Under(last, g, key) then [Entry(last.role, last.description)] else [])
  }

  /** One more document adds its entry to the end of its own name's list. */
  lemma EntriesSnoc(docs: seq<Mapping>, d: Mapping, g: int, key: string)
    ensures Entries(docs + [d], g, key) == Entries(docs, g, key) + (if Under(d, g, key) then [Entry(d.role, d.description)] else [])
  {
    assert (docs + [d])[..|docs|] == docs;
  }

  /** A grouping of `docs` by name, extended by one document, groups `docs + [d]`. */
  lemma GroupStep(docs: seq<Mapping>, d: Mapping, g: int, grouped: map<string, seq<Entry>>)
    requires grouped.Keys == Names(docs, g)
    requires forall n :: n in grouped ==> grouped[n] == Entries(docs, g, n)
    ensures var next := if d.guild == g
                        then grouped[d.name := (if d.name in grouped then grouped[d.name] else []) + [Entry(d.role, d.description)]]
                        else grouped;
            next.Keys == Names(docs + [d], g) && forall n :: n in next ==> next[n] == Entries(docs + [d], g, n)
  {
    NamesSnoc(docs, d, g);
    var next := if d.guild == g
                then grouped[d.name := (if d.name in grouped then grouped[d.name] else []) + [Entry(d.role, d.description)]]
                else grouped;
    forall n | n in next ensures next[n] == Entries(docs + [d], g, n) {
      EntriesSnoc(docs, d, g, n);
    }
  }

  // ---------------------------------------------------------------------------
  // The custom command
  // ---------------------------------------------------------------------------

  /** Index of the first whitespace character, or the length. */
  function FirstSpace(s: string): (k: nat)
    ensures k <= |s|
    ensures forall i :: 0 <= i < k ==> !IsSpace(s[i])
    ensures k < |s| ==> IsSpace(s[k])
  {
    if s == [] || IsSpace(s[0]) then 0 else 1 + FirstSpace(s[1..])
  }

  /** `message.content.split()[0][1:].lower()` for a message starting with '.'. */
  function CommandName(content: string): string
    requires |content| > 0 && content[0] == '.'
  {
    Lower(content[1..FirstSpace(content)])
  }

  /** The command name is the lower-cased word after the dot, whatever follows the first space. */
  lemma CommandNameOf(name: string, rest: string)
    requires NoSpace(name) && (rest == [] || IsSpace(rest[0]))
    ensures CommandName("." + name + rest) == Lower(name)
  {
    var s := "." + name + rest;
    var k := FirstSpace(s);
    assert !IsSpace('.');
    forall i | 0 <= i < |name| + 1
      ensures !IsSpace(s[i])
    {
      if i > 0 { assert s[i] == name[i - 1]; }
    }
    if |name| + 1 < |s| {
      assert s[|name| + 1] == rest[0];
    }
    assert s[1..k] == name;
  }

  /** An administrator, or a holder of the server's required role while that role still exists. */
  predicate Permitted(admin: bool, reqrole: map<int, int>, g: int, live: set<int>, authorRoles: set<int>)
  {
    admin || (g in reqrole && reqrole[g] in live && reqrole[g] in authorRoles)
  }

  /** The mapped roles that still exist, in order (`roles_to_toggle`). */
  function Live(ids: seq<int>, live: set<int>): (r: seq<int>)
    ensures |r| <= |ids|
    ensures forall x :: x in r <==> x in ids && x in live
  {
    if ids == [] then []
    else Live(ids[..|ids| - 1], live) + (if ids[|ids| - 1] in live then [ids[|ids| - 1]] else [])
  }

  /** The loop building `roles_to_toggle`. */
  method ExistingRoles(ids: seq<int>, live: set<int>) returns (roles: seq<int>)
    ensures roles == Live(ids, live)
  {
    roles := [];
    var i := 0;
    while i < |ids|
      invariant 0 <= i <= |ids|
      invariant roles == Live(ids[..i], live)
    {
      assert ids[..i + 1][..i] == ids[..i];
      if ids[i] in live {
        roles := roles + [ids[i]];
      }
      i := i + 1;
    }
    assert ids[..i] == ids;
  }

  predicate HoldsAny(held: set<int>, roles: seq<int>)
  {
    exists x :: x in roles && x in held
  }

  /** The toggle: all the roles go when the member holds any of them, otherwise all are added. */
  function Toggle(held: set<int>, roles: seq<int>): (r: set<int>)
    ensures forall x :: x !in roles ==> (x in r <==> x in held)
    ensures HoldsAny(held, roles) ==> forall x :: x in roles ==> x !in r
    ensures !HoldsAny(held, roles) ==> forall x :: x in roles ==> x in r
  {
    if HoldsAny(held, roles) then held - set x | x in roles else held + set x | x in roles
  }

  /** Toggling twice gives the member's roles back exactly when they held none or all of the roles. */
  lemma ToggleTwice(held: set<int>, roles: seq<int>)
    ensures Toggle(Toggle(held, roles), roles) == held <==>
              (forall x :: x in roles ==> x !in held) || (forall x :: x in roles ==> x in held)
  {
    var once := Toggle(held, roles);
    var twice := Toggle(once, roles);
    if HoldsAny(held, roles) {
      if roles != [] {
        assert roles[0] in roles;
      }
      if exists x :: x in roles && x !in held {
        var x :| x in roles && x !in held;
        assert x in twice by {
          if roles != [] { assert roles[0] !in once; }
        }
      } else {
        assert twice == held by {
          assert !HoldsAny(once, roles);
        }
      }
    } else {
      assert forall x :: x in roles ==> x !in held;
      if roles != [] {
        var w := roles[0];
        assert w in roles && w in once;
        assert HoldsAny(once, roles);
        assert twice == once - set x | x in roles;
      }
      assert twice == held;
    }
  }

  /** What happened to a message. */
  datatype Outcome =
    | Ignored        // not a custom role command
    | Denied         // the author may not use it
    | NoValidRoles   // none of the mapped roles exists any more
    | RolesRemoved(roles: seq<int>)
    | RolesAdded(roles: seq<int>)
    | EditFailed(roles: seq<int>)  // the role edit raised, which leaves the listener with no reply

  class RoleManager {
    /** `reqrole`: the required role of each server. */
    var reqrole: map<int, int>
    /** `custom_roles`, in insertion order. */
    var mappings: seq<Mapping>

    /** Custom names are stored lower-cased. */
    predicate Valid()
      reads this
    {
      AllLower(mappings)
    }

    constructor()
      ensures Valid() && reqrole == map[] && mappings == []
    {
      reqrole := map[];
      mappings := [];
    }

    /** `setup_reqrole`: the server's required role, inserted or replaced. */
    method SetupReqrole(g: int, role: int)
      modifies this
      ensures reqrole == old(reqrole)[g := role] && mappings == old(mappings)
    {
      reqrole := reqrole[g := role];
    }

    /**
     * `set_custom_role`: the document for the server, the lower-cased name
     * and the role is replaced with the new description, or inserted when
     * there is none; afterwards the name maps to the role.
     */
    method SetCustomRole(g: int, name: string, role: int, description: Option<string>)
      requires Valid()
      modifies this
      ensures Valid() && reqrole == old(reqrole)
      ensures var d := Mapping(g, Lower(name), role, description);
              (exists k :: 0 <= k < |old(mappings)| && Under(old(mappings)[k], g, Lower(name)) && old(mappings)[k].role == role
                           && mappings == old(mappings)[k := d])
              || mappings == old(mappings) + [d]
      ensures role in Ids(mappings, g, Lower(name))
      ensures forall g2, key2 :: !(g2 == g && key2 == Lower(name)) ==> Ids(mappings, g2, key2) == Ids(old(mappings), g2, key2)
    {
      var key := Lower(name);
      LowerIdempotent(name);
      var d := Mapping(g, key, role, description);
      var found := FirstWhere(mappings, (x: Mapping) => Under(x, g, key) && x.role == role);
      ghost var before := mappings;
      if found.Some? {
        var k := found.value;
        PutLower(mappings, k, d);
        mappings := mappings[k := d];
        forall g2, key2
          ensures Ids(mappings, g2, key2) == Ids(before, g2, key2)
        {
          IdsReplace(before, k, d, g2, key2);
        }
        assert mappings[k] == d;
      } else {
        PutLower(mappings, |mappings|, d);
        mappings := mappings + [d];
        assert mappings[..|mappings| - 1] == before;
        forall g2, key2 | !(g2 == g && key2 == key)
          ensures Ids(mappings, g2, key2) == Ids(before, g2, key2)
        {
          assert Ids(mappings, g2, key2) == Ids(before, g2, key2) + [];
        }
      }
    }

    /**
     * `remove_custom_role`: with a role, the first document of the name
     * with that role is deleted; without one, every document of the name.
     * The count deleted comes back.
     */
    method RemoveCustomRole(g: int, name: string, role: Option<int>) returns (deleted: nat)
      requires Valid()
      modifies this
      ensures Valid() && reqrole == old(reqrole)
      ensures role.None? ==> mappings == Drop(old(mappings), g, Lower(name)) && deleted == |Ids(old(mappings), g, Lower(name))|
      ensures role.Some? && !(role.value in Ids(old(mappings), g, Lower(name))) ==> deleted == 0 && mappings == old(mappings)
      ensures role.Some? && role.value in Ids(old(mappings), g, Lower(name)) ==>
                deleted == 1 &&
                exists k :: 0 <= k < |old(mappings)| && mappings == RemoveAt(old(mappings), k)
                            && Under(old(mappings)[k], g, Lower(name)) && old(mappings)[k].role == role.value
                            && role.value !in Ids(old(mappings)[..k], g, Lower(name))
    {
      if role.None? {
        deleted := DeleteMany(g, Lower(name));
      } else {
        deleted := DeleteOne(g, Lower(name), role.value);
      }
    }

    /** `delete_many` on the name. */
    method DeleteMany(g: int, key: string) returns (deleted: nat)
      requires Valid()
      modifies this
      ensures Valid() && reqrole == old(reqrole)
      ensures mappings == Drop(old(mappings), g, key) && deleted == |Ids(old(mappings), g, key)|
    {
      var before := mappings;
      DropIds(mappings, g, key, g, key);
      DropLower(mappings, g, key);
      mappings := Drop(mappings, g, key);
      deleted := |before| - |mappings|;
    }

    /** `delete_one` on the name and the role. */
    method DeleteOne(g: int, key: string, r: int) returns (deleted: nat)
      requires Valid()
      modifies this
      ensures Valid() && reqrole == old(reqrole)
      ensures r !in Ids(old(mappings), g, key) ==> deleted == 0 && mappings == old(mappings)
      ensures r in Ids(old(mappings), g, key) ==>
                deleted == 1 &&
                exists k :: 0 <= k < |old(mappings)| && mappings == RemoveAt(old(mappings), k)
                            && Under(old(mappings)[k], g, key) && old(mappings)[k].role == r
                            && r !in Ids(old(mappings)[..k], g, key)
    {
      var found := FirstWhere(mappings, (x: Mapping) => Under(x, g, key) && x.role == r);
      if found.None? {
        RoleAbsent(mappings, |mappings|, g, key, r);
        assert mappings[..|mappings|] == mappings;
        return 0;
      }
      var k := found.value;
      RoleAbsent(mappings, k, g, key, r);
      assert mappings[k] in mappings;
      mappings := RemoveAt(mappings, k);
      deleted := 1;
    }

    /**
     * `setup_multi_role`: refused without roles; otherwise every document
     * of the name goes and one per given role is inserted.
     */
    method SetupMultiRole(g: int, name: string, roles: seq<int>) returns (done: bool)
      requires Valid()
      modifies this
      ensures Valid() && reqrole == old(reqrole)
      ensures done <==> roles != []
      ensures !done ==> mappings == old(mappings)
      ensures done ==> mappings == Drop(old(mappings), g, Lower(name)) + Docs(g, Lower(name), roles)
      ensures done ==> Ids(mappings, g, Lower(name)) == roles
      ensures forall g2, key2 :: !(g2 == g && key2 == Lower(name)) ==> Ids(mappings, g2, key2) == Ids(old(mappings), g2, key2)
    {
      if roles == [] {
        return false;
      }
      var key := Lower(name);
      LowerIdempotent(name);
      ghost var before := mappings;
      var kept := Drop(mappings, g, key);
      var added := Docs(g, key, roles);
      mappings := kept + added;
      forall g2, key2
        ensures Ids(mappings, g2, key2) == if g2 == g && key2 == key then roles else Ids(before, g2, key2)
      {
        IdsAppend(kept, added, g2, key2);
        DropIds(before, g, key, g2, key2);
        DocsIds(g, key, roles, g2, key2);
      }
      DropLower(before, g, key);
      AppendLower(kept, added);
      done := true;
    }

    /** `get_all_custom_roles`: the server's names, each with its entries in document order. */
    method GetAllCustomRoles(g: int) returns (result: map<string, seq<Entry>>)
      ensures result.Keys == Names(mappings, g)
      ensures forall n :: n in result ==> result[n] == Entries(mappings, g, n) && result[n] != []
    {
      result := map[];
      var i := 0;
      while i < |mappings|
        invariant 0 <= i <= |mappings|
        invariant result.Keys == Names(mappings[..i], g)
        invariant forall n :: n in result ==> result[n] == Entries(mappings[..i], g, n)
      {
        var d := mappings[i];
        assert mappings[..i + 1] == mappings[..i] + [d];
        GroupStep(mappings[..i], d, g, result);
        if d.guild == g {
          var sofar := if d.name in result then result[d.name] else [];
          result := result[d.name := sofar + [Entry(d.role, d.description)]];
        }
        i := i + 1;
      }
      assert mappings[..i] == mappings;
    }

    /**
     * `on_message`: a '.'-prefixed message that is no command, in a
     * server, with mapped roles under its first word and exactly one
     * mention, toggles the roles that still exist on the mentioned member,
     * when its author is permitted. The role edit has no try around it:
     * when Discord refuses it (`editOk` false) the member keeps their roles
     * and nothing is said.
     */
    method OnMessage(content: string, bot: bool, isCommand: bool, guild: Option<int>, mentions: seq<int>,
                     admin: bool, authorRoles: set<int>, live: set<int>, held: set<int>, editOk: bool)
      returns (outcome: Outcome, newHeld: set<int>)
      requires Valid()
      ensures var fires := !bot && |content| > 0 && content[0] == '.' && !isCommand && guild.Some?
                           && Ids(mappings, guild.value, CommandName(content)) != [] && |mentions| == 1;
              (outcome.Ignored? <==> !fires)
              && (outcome.Denied? <==> fires && !Permitted(admin, reqrole, guild.value, live, authorRoles))
      ensures outcome.NoValidRoles? || outcome.RolesRemoved? || outcome.RolesAdded? || outcome.EditFailed? ==>
                Permitted(admin, reqrole, guild.value, live, authorRoles)
                && var roles := Live(Ids(mappings, guild.value, CommandName(content)), live);
                (outcome.NoValidRoles? <==> roles == [])
                && (outcome.EditFailed? <==> roles != [] && !editOk)
                && (outcome.RolesRemoved? <==> roles != [] && editOk && HoldsAny(held, roles))
                && (outcome.RolesAdded? <==> roles != [] && editOk && !HoldsAny(held, roles))
                && (!outcome.NoValidRoles? ==> outcome.roles == roles)
                && (outcome.RolesRemoved? || outcome.RolesAdded? ==> newHeld == Toggle(held, roles))
      ensures outcome.Ignored? || outcome.Denied? || outcome.NoValidRoles? || outcome.EditFailed? ==> newHeld == held
    {
      newHeld := held;
      if bot || |content| == 0 || content[0] != '.' {
        return Ignored, held;
      }
      if isCommand || guild.None? {
        return Ignored, held;
      }
      var g := guild.value;
      var cmd := CommandName(content);
      var ids := Ids(mappings, g, cmd);
      if ids == [] || |mentions| != 1 {
        return Ignored, held;
      }
      if !Permitted(admin, reqrole, g, live, authorRoles) {
        return Denied, held;
      }
      var roles := ExistingRoles(ids, live);
      if roles == [] {
        return NoValidRoles, held;
      }
      if !editOk {
        return EditFailed(roles), held;
      }
      newHeld := Toggle(held, roles);
      if HoldsAny(held, roles) {
        outcome := RolesRemoved(roles);
      } else {
        outcome := RolesAdded(roles);
      }
    }
  }
}
