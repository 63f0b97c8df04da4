/** The spawner's reconcile over the pipe server: whose watcher it sees
    (internal/agent/spawn_windows.go, internal/agent/pipe_windows.go). */
module Grants {
  import opened Common
  import opened Spawner
  import Pipe

  /** MAIN: a watcher that a reconcile sees attached came in under the DACL of the session's user, whom
      it has just granted the pipe, whatever ran between the grant and the look. */
  lemma {:induction false} SeenWatcherIsTheSessionUsers(sddl: string, steps: seq<Pipe.Step>, caller: nat,
                                                        more: seq<Pipe.Step>, w: World)
    requires SeesWatcher(w) && w.user.value != "" && caller !in Pipe.After(sddl, steps).callers
    requires forall s :: s in more && s.EnsureSddl? ==> s.userSID == w.user.value
    requires w.connected == Pipe.After(sddl, steps + [Pipe.EnsureSddl(caller, w.user.value)] + more).connected
    ensures var p := Pipe.After(sddl, steps + [Pipe.EnsureSddl(caller, w.user.value)] + more);
            && p.client.Some? && p.client.value in p.files
            && p.files[p.client.value].sddl == Pipe.SddlFor(w.user.value)
            && forall other :: other != w.user.value ==> p.files[p.client.value].sddl != Pipe.SddlFor(other)
  {
    Pipe.ClientIsOfGrantedUser(sddl, steps, caller, w.user.value, more);
  }
}
