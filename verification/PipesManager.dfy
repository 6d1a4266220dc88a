/**
 The pipes manager: three hash tables that refer to each other, from pipe ids to pipes with their
 entries, from entry ids to pipe ids, and from ports to their pipe ids.
 */
module PipesManager {

  type Id = x: nat | x < 0x1_0000_0000_0000_0000
  type Port = x: nat | x < 0x1_0000
  type Ptr = nat

  datatype Error = InvalidValue | NotFound | NoMemory
  datatype Result<T> = Success(value: T) | Failure(error: Error)
  datatype Unit = Unit

  /** struct pipe_info: the pipe, the port whose table lists it, and its entries. */
  datatype PipeInfo = PipeInfo(pipe: Ptr, port: Port, entries: map<Id, Ptr>)

  /** Whether each allocation or insertion of a call succeeds. */
  datatype Luck = Luck(table: bool, key: bool, port: bool, info: bool, pipe: bool)

  /** An entry id maps to pipe p exactly when it is in p's entry table. */
  ghost predicate EntriesMatch(pipes: map<Id, PipeInfo>, owner: map<Id, Id>) {
    && (forall e <- owner :: owner[e] in pipes && e in pipes[owner[e]].entries)
    && (forall p <- pipes :: forall e <- pipes[p].entries :: e in owner && owner[e] == p)
  }

  /** A pipe is registered exactly when it is in its port's set. */
  ghost predicate PortsMatch(pipes: map<Id, PipeInfo>, ports: map<Port, set<Id>>) {
    && (forall p <- pipes :: pipes[p].port in ports && p in ports[pipes[p].port])
    && (forall q <- ports :: forall p <- ports[q] :: p in pipes && pipes[p].port == q)
  }

  lemma PipeAdded(pipes: map<Id, PipeInfo>, owner: map<Id, Id>, ports: map<Port, set<Id>>, id: Id, info: PipeInfo)
    requires EntriesMatch(pipes, owner) && PortsMatch(pipes, ports) && id !in pipes && info.entries == map[]
    ensures EntriesMatch(pipes[id := info], owner)
    ensures PortsMatch(pipes[id := info],
                       ports[info.port := (if info.port in ports then ports[info.port] else {}) + {id}])
    ensures info.port in ports ==> id !in ports[info.port]
  {
  }

  /** Entry id of pipe p: the tables match if it was new, or p's own, and otherwise not. */
  lemma EntryAdded(pipes: map<Id, PipeInfo>, owner: map<Id, Id>, p: Id, id: Id, entry: Ptr)
    requires EntriesMatch(pipes, owner) && p in pipes
    ensures var pipes' := pipes[p := pipes[p].(entries := pipes[p].entries[id := entry])];
            EntriesMatch(pipes', owner[id := p]) <==> id !in owner || owner[id] == p
    ensures id !in owner ==> id !in pipes[p].entries
  {
    var pipes' := pipes[p := pipes[p].(entries := pipes[p].entries[id := entry])];
    if id in owner && owner[id] != p {
      assert id in pipes'[owner[id]].entries;
    }
  }

  lemma EntryGone(pipes: map<Id, PipeInfo>, owner: map<Id, Id>, e: Id)
    requires EntriesMatch(pipes, owner) && e in owner
    ensures var p := owner[e];
            && p in pipes && e in pipes[p].entries
            && EntriesMatch(pipes[p := pipes[p].(entries := pipes[p].entries - {e})], owner - {e})
  {
  }

  lemma SamePorts(pipes: map<Id, PipeInfo>, ports: map<Port, set<Id>>, p: Id, info: PipeInfo)
    requires PortsMatch(pipes, ports) && p in pipes && info.port == pipes[p].port
    ensures PortsMatch(pipes[p := info], ports)
  {
  }

  /** The entries that belong to none of the pipes in gone. */
  ghost function Outside(owner: map<Id, Id>, gone: set<Id>): map<Id, Id> {
    map e | e in owner && owner[e] !in gone :: owner[e]
  }

  /** Without a pipe and what its entry table lists, exactly the entries of other pipes are left. */
  lemma PipeGone(pipes: map<Id, PipeInfo>, owner: map<Id, Id>, p: Id)
    requires EntriesMatch(pipes, owner) && p in pipes
    ensures EntriesMatch(pipes - {p}, owner - pipes[p].entries.Keys)
    ensures owner - pipes[p].entries.Keys == Outside(owner, {p})
  {
  }

  lemma PipeUnlisted(pipes: map<Id, PipeInfo>, ports: map<Port, set<Id>>, p: Id)
    requires PortsMatch(pipes, ports) && p in pipes
    ensures var q := pipes[p].port;
            q in ports && p in ports[q] && PortsMatch(pipes - {p}, ports[q := ports[q] - {p}])
  {
  }

  /** Without the pipes its set lists, a port is no longer needed. */
  lemma PortGone(pipes: map<Id, PipeInfo>, ports: map<Port, set<Id>>, q: Port)
    requires PortsMatch(pipes, ports) && q in ports
    ensures PortsMatch(pipes - ports[q], ports - {q})
    ensures forall p :: p in pipes - ports[q] <==> p in pipes && pipes[p].port != q
    ensures forall p <- ports[q] :: p in pipes
  {
  }

  lemma OutsideMore(owner: map<Id, Id>, gone: set<Id>, p: Id)
    ensures Outside(owner, gone + {p}) == Outside(Outside(owner, gone), {p})
    ensures Outside(owner, {}) == owner
  {
  }

  ghost function Without(pipes: map<Id, PipeInfo>, gone: set<Id>): map<Id, PipeInfo> {
    pipes - gone
  }

  lemma WithoutMore(pipes: map<Id, PipeInfo>, gone: set<Id>, p: Id)
    ensures Without(pipes, gone + {p}) == Without(Without(pipes, gone), {p}) && Without(pipes, {}) == pipes
  {
  }

  lemma FlushLeaves(pipes: map<Id, PipeInfo>, owner: map<Id, Id>, ports: map<Port, set<Id>>, q: Port)
    requires EntriesMatch(pipes, owner) && PortsMatch(pipes, ports) && q in ports
    ensures forall e :: e in Outside(owner, ports[q]) <==> e in owner && owner[e] in pipes && pipes[owner[e]].port != q
  {
  }

  class Manager {
    var pipes: map<Id, PipeInfo>
    var entryToPipe: map<Id, Id>
    var ports: map<Port, set<Id>>

    ghost predicate Valid()
      reads this
    {
      EntriesMatch(pipes, entryToPipe) && PortsMatch(pipes, ports)
    }

    /** create_pipes_manager. */
    constructor ()
      ensures Valid() && pipes == map[] && entryToPipe == map[] && ports == map[]
    {
      pipes, entryToPipe, ports := map[], map[], map[];
    }

    /** pipes_manager_pipe_create; id is the one generated. A call that fails rolls everything back. */
    method PipeCreate(pipe: Ptr, port: Port, id: Id, luck: Luck) returns (r: Result<Id>)
      requires Valid()
      modifies this
      ensures Valid() && entryToPipe == old(entryToPipe)
      ensures r.Success? <==> && id !in old(pipes) && luck.key && luck.info && luck.pipe
                              && (port in old(ports) || (luck.table && luck.port))
      ensures r.Success? ==>
                && r.value == id && pipes == old(pipes)[id := PipeInfo(pipe, port, map[])]
                && ports == old(ports)[port := (if port in old(ports) then old(ports)[port] else {}) + {id}]
      ensures r.Failure? ==> pipes == old(pipes) && ports == old(ports)
      ensures r.Failure? && id !in old(pipes) ==>
                var made := port in old(ports) || luck.table;
                var listed := made && luck.key && (port in old(ports) || luck.port);
                r.error == if !made || (listed && !luck.info) then NoMemory else InvalidValue
    {
      hide EntriesMatch, PortsMatch;
      if id in pipes {
        return Failure(InvalidValue);
      }
      PipeAdded(pipes, entryToPipe, ports, id, PipeInfo(pipe, port, map[]));
      var isNewTable := port !in ports;
      if isNewTable {
        if !luck.table {
          return Failure(NoMemory);
        }
        if !luck.key {
          return Failure(InvalidValue);
        }
        if !luck.port {
          return Failure(InvalidValue);
        }
        ports := ports[port := {id}];
        assert {} + {id} == {id};
      } else {
        if !luck.key {
          return Failure(InvalidValue);
        }
        ports := ports[port := ports[port] + {id}];
      }
      if !luck.info {
        ports := ports[port := ports[port] - {id}];
        if isNewTable {
          ports := ports - {port};
        }
        assert ports == old(ports);
        return Failure(NoMemory);
      }
      if !luck.pipe {
        ports := ports[port := ports[port] - {id}];
        if isNewTable {
          ports := ports - {port};
        }
        assert ports == old(ports);
        return Failure(InvalidValue);
      }
      pipes := pipes[id := PipeInfo(pipe, port, map[])];
      return Success(id);
    }

    /**
     pipes_manager_pipe_add_entry; id is the one generated, and address the bytes of the pointer to it,
     which is what the test for duplicates looks up. The tables keep matching if and only if the id
     was new, or belonged to the same pipe already.
     */
    method PipeAddEntry(entry: Ptr, pipe: Id, id: Id, address: Id, entryRoom: bool, mapRoom: bool) returns (r: Result<Id>)
      requires Valid()
      modifies this`pipes, this`entryToPipe
      ensures r.Success? <==>
                && pipe in old(pipes) && address !in old(pipes)[pipe].entries
                && (id in old(pipes)[pipe].entries || entryRoom) && (id in old(entryToPipe) || mapRoom)
      ensures r.Success? ==>
                && r.value == id && entryToPipe == old(entryToPipe)[id := pipe]
                && pipes == old(pipes)[pipe := old(pipes)[pipe].(entries := old(pipes)[pipe].entries[id := entry])]
      ensures r.Failure? ==> pipes == old(pipes) && entryToPipe == old(entryToPipe)
      ensures Valid() <==> r.Failure? || id !in old(entryToPipe) || old(entryToPipe)[id] == pipe
    {
      hide EntriesMatch, PortsMatch;
      if pipe !in pipes {
        return Failure(InvalidValue);
      }
      var info := pipes[pipe];
      EntryAdded(pipes, entryToPipe, pipe, id, entry);
      SamePorts(pipes, ports, pipe, info.(entries := info.entries[id := entry]));
      if address in info.entries {
        return Failure(InvalidValue);
      }
      if id !in info.entries && !entryRoom {
        return Failure(InvalidValue);
      }
      pipes := pipes[pipe := info.(entries := info.entries[id := entry])];
      if id !in entryToPipe && !mapRoom {
        pipes := pipes[pipe := info.(entries := pipes[pipe].entries - {id})];
        assert info.entries[id := entry] - {id} == info.entries;
        assert pipes == old(pipes);
        return Failure(InvalidValue);
      }
      entryToPipe := entryToPipe[id := pipe];
      return Success(id);
    }

    /** pipes_manager_get_pipe: finds precisely the pipes that some port lists, with their own pointer. */
    method GetPipe(pipe: Id) returns (r: Result<Ptr>)
      requires Valid()
      ensures r.Success? <==> exists q <- ports :: pipe in ports[q]
      ensures forall q <- ports :: pipe in ports[q] ==> pipe in pipes && pipes[pipe].port == q && r == Success(pipes[pipe].pipe)
      ensures r.Failure? ==> r.error == NotFound
    {
      if pipe !in pipes {
        return Failure(NotFound);
      }
      return Success(pipes[pipe].pipe);
    }

    /** pipes_manager_get_entry: finds precisely the entries that some pipe has. */
    method GetEntry(entry: Id) returns (r: Result<Ptr>)
      requires Valid()
      ensures r.Success? <==> exists p <- pipes :: entry in pipes[p].entries
      ensures r.Success? ==> forall p <- pipes :: entry in pipes[p].entries ==> r.value == pipes[p].entries[entry]
      ensures r.Failure? ==> r.error == NotFound
    {
      if entry !in entryToPipe {
        return Failure(NotFound);
      }
      var pipe := entryToPipe[entry];
      if pipe !in pipes {
        return Failure(NotFound);
      }
      if entry !in pipes[pipe].entries {
        return Failure(NotFound);
      }
      return Success(pipes[pipe].entries[entry]);
    }

    /** pipes_manager_pipe_rm_entry. */
    method PipeRmEntry(entry: Id) returns (r: Result<Unit>)
      requires Valid()
      modifies this`pipes, this`entryToPipe
      ensures Valid() && (r.Success? <==> entry in old(entryToPipe)) && (r.Failure? ==> r.error == InvalidValue)
      ensures r.Failure? ==> pipes == old(pipes) && entryToPipe == old(entryToPipe)
      ensures r.Success? ==>
                var p := old(entryToPipe)[entry];
                && entryToPipe == old(entryToPipe) - {entry} && p in old(pipes)
                && pipes == old(pipes)[p := old(pipes)[p].(entries := old(pipes)[p].entries - {entry})]
    {
      hide EntriesMatch, PortsMatch;
      if entry !in entryToPipe {
        return Failure(InvalidValue);
      }
      EntryGone(pipes, entryToPipe, entry);
      var pipe := entryToPipe[entry];
      if pipe !in pipes {
        return Failure(InvalidValue);
      }
      var info := pipes[pipe];
      SamePorts(pipes, ports, pipe, info.(entries := info.entries - {entry}));
      entryToPipe := entryToPipe - {entry};
      if entry !in info.entries {
        return Failure(NotFound);
      }
      pipes := pipes[pipe := info.(entries := info.entries - {entry})];
      return Success(Unit);
    }

    /** The loop that unmaps every entry of a table. */
    method Unmap(entries: set<Id>)
      modifies this`entryToPipe
      ensures entryToPipe == old(entryToPipe) - entries
    {
      var left := entries;
      while left != {}
        invariant left <= entries && entryToPipe == old(entryToPipe) - (entries - left)
        decreases |left|
      {
        var e :| e in left;
        left := left - {e};
        entryToPipe := entryToPipe - {e};
        assert entries - left == (entries - (left + {e})) + {e};
      }
      assert entries - left == entries;
    }

    /** pipes_manager_pipe_destroy: exactly this pipe goes, and exactly the entries that were mapped to it. */
    method PipeDestroy(pipe: Id) returns (r: Result<Unit>)
      requires Valid()
      modifies this
      ensures Valid() && (r.Success? <==> pipe in old(pipes)) && (r.Failure? ==> r.error == InvalidValue)
      ensures r.Failure? ==> pipes == old(pipes) && entryToPipe == old(entryToPipe) && ports == old(ports)
      ensures r.Success? ==>
                var q := old(pipes)[pipe].port;
                && pipes == old(pipes) - {pipe} && q in old(ports) && ports == old(ports)[q := old(ports)[q] - {pipe}]
                && entryToPipe == Outside(old(entryToPipe), {pipe})
    {
      hide EntriesMatch, PortsMatch;
      if pipe !in pipes {
        return Failure(InvalidValue);
      }
      PipeGone(pipes, entryToPipe, pipe);
      PipeUnlisted(pipes, ports, pipe);
      var info := pipes[pipe];
      if info.port !in ports || pipe !in ports[info.port] {
        return Failure(NotFound);
      }
      ports := ports[info.port := ports[info.port] - {pipe}];
      Unmap(info.entries.Keys);
      pipes := pipes - {pipe};
      return Success(Unit);
    }

    /** pipes_manager_pipes_flush: exactly the pipes of the port go, with exactly their entries. */
    method PipesFlush(port: Port) returns (r: Result<Unit>)
      requires Valid()
      modifies this
      ensures Valid() && (r.Success? <==> port in old(ports)) && (r.Failure? ==> r.error == InvalidValue)
      ensures r.Failure? ==> pipes == old(pipes) && entryToPipe == old(entryToPipe) && ports == old(ports)
      ensures r.Success? ==>
                && ports == old(ports) - {port} && pipes == old(pipes) - old(ports)[port]
                && entryToPipe == Outside(old(entryToPipe), old(ports)[port])
                && (forall p :: p in pipes <==> p in old(pipes) && old(pipes)[p].port != port)
                && (forall e :: e in entryToPipe <==>
                      && e in old(entryToPipe) && old(entryToPipe)[e] in old(pipes)
                      && old(pipes)[old(entryToPipe)[e]].port != port)
    {
      hide EntriesMatch, PortsMatch, Outside;
      if port !in ports {
        return Failure(InvalidValue);
      }
      PortGone(pipes, ports, port);
      FlushLeaves(pipes, entryToPipe, ports, port);
      FlushAll(ports[port]);
      ports := ports - {port};
      return Success(Unit);
    }

    /** The loop over the pipes of a port. */
    method FlushAll(listed: set<Id>)
      requires listed <= pipes.Keys && EntriesMatch(pipes, entryToPipe)
      modifies this`pipes, this`entryToPipe
      ensures EntriesMatch(pipes, entryToPipe)
      ensures pipes == Without(old(pipes), listed) && entryToPipe == Outside(old(entryToPipe), listed)
    {
      hide EntriesMatch, Outside, Without;
      var left := listed;
      ghost var gone: set<Id> := {};
      OutsideMore(entryToPipe, gone, 0);
      WithoutMore(pipes, gone, 0);
      while left != {}
        invariant left !! gone && left + gone == listed && left <= pipes.Keys
        invariant pipes == Without(old(pipes), gone) && EntriesMatch(pipes, entryToPipe)
        invariant entryToPipe == Outside(old(entryToPipe), gone)
        decreases |left|
      {
        var pipe :| pipe in left;
        left := left - {pipe};
        OutsideMore(old(entryToPipe), gone, pipe);
        WithoutMore(old(pipes), gone, pipe);
        FlushOne(pipe);
        gone := gone + {pipe};
      }
      assert gone == listed;
    }

    /** One round of the flush loop: a pipe with all its entries. */
    method FlushOne(pipe: Id)
      requires pipe in pipes && EntriesMatch(pipes, entryToPipe)
      modifies this`pipes, this`entryToPipe
      ensures pipes == Without(old(pipes), {pipe}) && EntriesMatch(pipes, entryToPipe)
      ensures pipes.Keys == old(pipes).Keys - {pipe} && entryToPipe == Outside(old(entryToPipe), {pipe})
    {
      hide EntriesMatch, Outside;
      PipeGone(pipes, entryToPipe, pipe);
      Unmap(pipes[pipe].entries.Keys);
      pipes := pipes - {pipe};
    }
  }
}
