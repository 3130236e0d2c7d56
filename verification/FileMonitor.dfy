// The table of directories (file_monitor.c), walked from its head by every operation.
module FileMonitor {
  import opened Jobs
  import opened Scheduler

  lemma {:induction false} FindIs(monitor: seq<Info>, src: string, i: nat)
    requires i <= |monitor| && (i < |monitor| ==> monitor[i].src == src)
    requires forall j :: 0 <= j < i ==> monitor[j].src != src
    ensures Find(monitor, src) == i
  {
  }

  lemma {:induction false} FindWatchIs(monitor: seq<Info>, wd: int, i: nat)
    requires i <= |monitor| && (i < |monitor| ==> monitor[i].wd == wd)
    requires forall j :: 0 <= j < i ==> monitor[j].wd != wd
    ensures FindWatch(monitor, wd) == i
  {
  }

  class Table {
    var entries: seq<Info>

    constructor ()
      ensures entries == []
    {
      entries := [];
    }

    /** file_monitor_get_info by name; the length of the table stands for NULL. */
    method Lookup(src: string) returns (i: nat)
      ensures i == Find(entries, src)
    {
      i := 0;
      while i < |entries| && entries[i].src != src
        invariant i <= |entries| && forall j :: 0 <= j < i ==> entries[j].src != src
      {
        i := i + 1;
      }
      FindIs(entries, src, i);
    }

    /** file_monitor_get_info by watch. */
    method LookupWatch(wd: int) returns (i: nat)
      ensures i == FindWatch(entries, wd)
    {
      i := 0;
      while i < |entries| && entries[i].wd != wd
        invariant i <= |entries| && forall j :: 0 <= j < i ==> entries[j].wd != wd
      {
        i := i + 1;
      }
      FindWatchIs(entries, wd, i);
    }

    /** file_monitor_is_working */
    method Working(src: string) returns (r: int)
      ensures r == IsWorking(entries, src)
    {
      var i := Lookup(src);
      r := if i == |entries| then -1 else if entries[i].pid != NO_WORKER then 1 else 0;
    }

    /** file_monitor_add: a new entry, or an inactive one that becomes active again with its new watch and target. */
    method Add(src: string, tar: string, wd: int) returns (r: int)
      modifies this
      ensures r == if IsActive(old(entries), src) then -2 else 0
      ensures entries == if IsActive(old(entries), src) then old(entries) else Watch(old(entries), src, tar, wd)
    {
      var i := Lookup(src);
      if i < |entries| {
        if entries[i].active {
          return -2;
        }
        entries := entries[i := entries[i].(active := true, wd := wd, tar := tar)];
        return 0;
      }
      entries := entries + [Info(src, tar, wd, NO_WORKER, true)];
      r := 0;
    }

    /** file_monitor_set_working, and file_monitor_set_not_working with NO_WORKER. */
    method Mark(src: string, pid: int) returns (r: int)
      modifies this
      ensures entries == SetPid(old(entries), src, pid)
      ensures r == if Find(old(entries), src) == |old(entries)| then -1 else 0
    {
      var i := Lookup(src);
      if i == |entries| {
        return -1;
      }
      entries := entries[i := entries[i].(pid := pid)];
      r := 0;
    }

    /** file_monitor_set_inactive: the entry stays, with its watch and its mark. */
    method Deactivate(src: string) returns (r: int)
      modifies this
      ensures var i := Find(old(entries), src);
              if i == |old(entries)| then r == -1 && entries == old(entries)
              else r == 0 && entries == old(entries)[i := old(entries)[i].(active := false)]
    {
      var i := Lookup(src);
      if i == |entries| {
        return -1;
      }
      entries := entries[i := entries[i].(active := false)];
      r := 0;
    }
  }
}
