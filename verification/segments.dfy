/**
 * The registry: the process-wide map from group name to Group, with `init`,
 * `add` and `useSegment`. A registry object stands for the class's static
 * `groups` field.
 */
module Registry {
  import opened Wrappers
  import opened Groups

  class Segments {
    var groups: map<string, Group>

    /** Every registered group is well formed, and no Group object is registered under two names. */
    ghost predicate Valid()
      reads this, groups.Values
    {
      && (forall n :: n in groups ==> groups[n].Valid())
      && (forall a, b :: a in groups && b in groups && a != b ==> groups[a] != groups[b])
    }

    constructor ()
      ensures Valid() && groups == map[]
    {
      groups := map[];
    }

    /**
     * Installs a new group under `name`, replacing (and so dropping, with all
     * its subscribers) any group already there; other names keep their groups.
     */
    method Init(config: map<string, Segment>, name: string) returns (g: Group)
      requires Valid()
      modifies this
      ensures Valid() && fresh(g)
      ensures groups == old(groups)[name := g]
      ensures g.state == config && g.stack == map[] && g.registeredCount == 0 && g.delivered == []
      ensures g.isInitialized && g.name == name
    {
      g := new Group(config, name);
      groups := groups[name := g];
    }

    /**
     * Adds a segment to an existing group; a key the group already has is an
     * error and leaves the group as it was.
     */
    method Add(key: string, value: Segment, name: string) returns (r: Outcome<Error>)
      requires Valid()
      modifies (if name in groups then {groups[name]} else {})`state
      ensures Valid() && groups == old(groups)
      ensures name !in groups ==> r == Fail(UnknownGroup(name))
      ensures name in groups ==> (r == Fail(DuplicateKey(key)) <==> key in old(groups[name].state))
      ensures name in groups && key in old(groups[name].state) ==> unchanged(groups[name])
      ensures name in groups && key !in old(groups[name].state) ==>
        && r == Pass
        && groups[name].state == old(groups[name].state)[key := value]
        && groups[name].stack == old(groups[name].stack)
        && groups[name].registeredCount == old(groups[name].registeredCount)
        && groups[name].delivered == old(groups[name].delivered)
    {
      if name !in groups {
        return Fail(UnknownGroup(name));  // `this.groups[group]` is undefined
      }
      var g := groups[name];
      if key in g.state {
        return Fail(DuplicateKey(key));
      }
      g.state := g.state[key := value];
      r := Pass;
    }

    /** Delegates to the named group's `useSegment`. */
    function UseSegment(key: string, name: string): (r: Result<View, Error>)
      reads this, groups.Values
      ensures name !in groups ==> r == Failure(UnknownGroup(name))
      ensures name in groups ==> r == groups[name].UseSegment(key)
      ensures r.Success? ==> name in groups && key in groups[name].state && r.value.key == key
    {
      if name !in groups then Failure(UnknownGroup(name)) else groups[name].UseSegment(key)
    }
  }
}
