/**
 * The host's alarm facility (`bro.alarms`) as the alarm manager sees it: an
 * ordered collection of alarm records keyed by name.
 */
module Scheduler {
  import opened Wrappers
  import opened AlarmInfo

  /** An alarm record: its name (the key) and the schedule it was created with. */
  datatype Alarm = Alarm(name: string, info: AlarmInfo)

  predicate HasAlarm(alarms: seq<Alarm>, name: string) {
    exists a :: a in alarms && a.name == name
  }

  /** No two records share a name. */
  predicate UniqueNames(alarms: seq<Alarm>) {
    forall i, j :: 0 <= i < j < |alarms| ==> alarms[i].name != alarms[j].name
  }

  /** The listing with the record named `name` taken out, the others kept in order. */
  function Without(alarms: seq<Alarm>, name: string): (r: seq<Alarm>)
    ensures forall a :: a in r <==> a in alarms && a.name != name
  {
    if alarms == [] then []
    else if alarms[0].name == name then Without(alarms[1..], name)
    else [alarms[0]] + Without(alarms[1..], name)
  }

  /** After `Without`, no record of that name is left. */
  lemma WithoutRemoves(alarms: seq<Alarm>, name: string)
    ensures !HasAlarm(Without(alarms, name), name)
  {
  }

  /** A listing without a record of that name is returned as it was. */
  lemma {:induction false} WithoutAbsent(alarms: seq<Alarm>, name: string)
    requires !HasAlarm(alarms, name)
    ensures Without(alarms, name) == alarms
  {
    if alarms != [] {
      assert alarms[0] in alarms;
      assert forall a :: a in alarms[1..] ==> a in alarms;
      WithoutAbsent(alarms[1..], name);
    }
  }

  lemma UniqueTail(alarms: seq<Alarm>)
    requires alarms != [] && UniqueNames(alarms)
    ensures UniqueNames(alarms[1..])
    ensures forall a :: a in alarms[1..] ==> a.name != alarms[0].name
  {
    var tail := alarms[1..];
    forall i, j | 0 <= i < j < |tail| ensures tail[i].name != tail[j].name {
      assert tail[i] == alarms[i + 1] && tail[j] == alarms[j + 1];
    }
    forall a | a in tail ensures a.name != alarms[0].name {
      var k :| 0 <= k < |tail| && tail[k] == a;
      assert alarms[k + 1] == a;
    }
  }

  lemma UniqueCons(x: Alarm, rest: seq<Alarm>)
    requires UniqueNames(rest)
    requires forall a :: a in rest ==> a.name != x.name
    ensures UniqueNames([x] + rest)
  {
    var r := [x] + rest;
    forall i, j | 0 <= i < j < |r| ensures r[i].name != r[j].name {
      assert r[j] == rest[j - 1];
      if i > 0 {
        assert r[i] == rest[i - 1];
      }
    }
  }

  /** Unique names stay unique after `Without`. */
  lemma {:induction false} WithoutUnique(alarms: seq<Alarm>, name: string)
    requires UniqueNames(alarms)
    ensures UniqueNames(Without(alarms, name))
  {
    if alarms != [] {
      var tail := alarms[1..];
      UniqueTail(alarms);
      WithoutUnique(tail, name);
      if alarms[0].name != name {
        var rest := Without(tail, name);
        assert forall a :: a in rest ==> a in tail;
        UniqueCons(alarms[0], rest);
      }
    }
  }

  /** The name the host uses when `clear` is called without one. */
  function ClearKey(name: Option<string>): (key: string)
    ensures name.Some? ==> key == name.value
    ensures name.None? ==> key == ""
  {
    name.GetOr("")
  }

  /** The host's alarm store; `alarms` is the order `getAll` lists them in. */
  class Alarms {
    var alarms: seq<Alarm>

    ghost predicate Valid()
      reads this
    {
      UniqueNames(alarms)
    }

    constructor ()
      ensures Valid() && alarms == []
    {
      alarms := [];
    }

    /** `create(name, info)`: a record of that name is replaced; the new one is listed last. */
    method Create(name: string, info: AlarmInfo)
      requires Valid()
      modifies this
      ensures Valid()
      ensures alarms == Without(old(alarms), name) + [Alarm(name, info)]
    {
      var kept := Without(alarms, name);
      WithoutRemoves(alarms, name);
      WithoutUnique(alarms, name);
      alarms := kept + [Alarm(name, info)];
      forall i, j | 0 <= i < j < |alarms| ensures alarms[i].name != alarms[j].name {
        if j == |alarms| - 1 {
          assert alarms[i] in kept;
        }
      }
    }

    /** `clear(name)`: removes the record, reporting whether there was one. */
    method Clear(name: Option<string>) returns (wasCleared: bool)
      requires Valid()
      modifies this
      ensures Valid()
      ensures wasCleared == HasAlarm(old(alarms), ClearKey(name))
      ensures alarms == Without(old(alarms), ClearKey(name))
    {
      wasCleared := HasAlarm(alarms, ClearKey(name));
      WithoutUnique(alarms, ClearKey(name));
      alarms := Without(alarms, ClearKey(name));
    }

    /** `clearAll()`: removes every record, reporting whether there was any. */
    method ClearAll() returns (wasCleared: bool)
      requires Valid()
      modifies this
      ensures Valid()
      ensures wasCleared == (old(alarms) != [])
      ensures alarms == []
    {
      wasCleared := alarms != [];
      alarms := [];
    }

    /** `getAll()`: a snapshot of the records in listing order. */
    method GetAll() returns (listing: seq<Alarm>)
      ensures listing == alarms
    {
      listing := alarms;
    }
  }
}
