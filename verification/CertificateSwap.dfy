/** Installing certificates: a staged directory and a staged file, swapped in with rollback. */
module CertificateSwap {
  import opened Prelude

  datatype Node = Absent | Link | PlainFile | Folder(files: map<string, string>)

  datatype Payload = Payload(name: string, data: string)

  function Files(payloads: seq<Payload>): map<string, string> {
    if payloads == [] then map[]
    else Files(payloads[..|payloads| - 1])[payloads[|payloads| - 1].name := payloads[|payloads| - 1].data]
  }

  /** The directory and the settings file as a pair: what must change together. */
  datatype Pair = Pair(certDir: Node, env: Option<string>)

  /** The certificate directory may be replaced: it is missing, or a real directory whose backup name is free. */
  predicate Replaceable(certDir: Node, backup: Node) {
    certDir.Absent? || (certDir.Folder? && backup.Absent?)
  }

  /** The one failure has happened in between. */
  predicate Blown(before: int, after: int) {
    before >= 0 > after
  }

  class Disk {
    var certDir: Node
    var staging: Node
    var backup: Node
    var env: Option<string>
    var envTemp: Option<string>

    /** How many further operations succeed before one fails without effect; negative when none will. */
    var fuse: int

    function View(): Pair
      reads this
    {
      Pair(certDir, env)
    }

    method Attempt() returns (ok: bool)
      modifies this`fuse
      ensures fuse == old(fuse) - 1 && (ok <==> old(fuse) != 0)
    {
      ok := fuse != 0;
      fuse := fuse - 1;
    }

    /** Writes the payloads into the staging directory. */
    method Stage(payloads: seq<Payload>) returns (ok: bool)
      requires staging == Folder(map[])
      modifies this`staging, this`fuse
      ensures ok <==> !Blown(old(fuse), fuse)
      ensures fuse <= old(fuse)
      ensures staging.Folder? && (ok ==> staging.files == Files(payloads))
    {
      ok := Attempt();
      if !ok { return; }
      for i := 0 to |payloads|
        invariant staging == Folder(Files(payloads[..i]))
        invariant !Blown(old(fuse), fuse) && fuse <= old(fuse)
      {
        assert payloads[..i + 1][..i] == payloads[..i];
        ok := Attempt();
        if !ok { return; }
        staging := Folder(staging.files[payloads[i].name := ""]);
        ok := Attempt();
        if !ok { return; }
        staging := Folder(staging.files[payloads[i].name := payloads[i].data]);
        assert Files(payloads[..i])[payloads[i].name := ""][payloads[i].name := payloads[i].data] == Files(payloads[..i + 1]);
        ok := Attempt();
        if !ok { return; }
      }
      assert payloads[..|payloads|] == payloads;
      ok := true;
    }

    /** Writes the new settings beside the old ones; `held` tells whether a temporary name was taken. */
    method StageEnv(text: string) returns (ok: bool, held: bool)
      modifies this`envTemp, this`fuse
      ensures ok <==> !Blown(old(fuse), fuse)
      ensures fuse <= old(fuse)
      ensures ok ==> held && envTemp == Some(text)
      ensures !held ==> envTemp == old(envTemp)
    {
      held := false;
      ok := Attempt();
      if !ok { return; }
      envTemp := Some("");
      held := true;
      ok := Attempt();
      if !ok {
        envTemp := None;
        return;
      }
      envTemp := Some(text);
      ok := Attempt();
    }

    /** The swap proper; `held` and `aside` tell whether the temporary file and the backup are still ours. */
    method SwapIn() returns (ok: bool, held: bool, aside: bool)
      requires staging.Folder? && envTemp.Some?
      modifies this`certDir, this`staging, this`backup, this`env, this`envTemp, this`fuse
      ensures ok <==> Replaceable(old(certDir), old(backup)) && !Blown(old(fuse), fuse)
      ensures ok ==> View() == Pair(old(staging), old(envTemp)) && !held && !aside && backup == (if old(certDir).Folder? then Absent else old(backup))
      ensures staging == old(staging) || staging == Absent
      ensures !held ==> envTemp.None?
      ensures !ok ==>
        || (View() == old(View()) && backup == old(backup))
        || (certDir == Absent && env == old(env) && aside && backup == old(certDir) && old(certDir).Folder? && old(backup).Absent?)
        || (View() == Pair(old(staging), old(envTemp)) && backup == old(certDir) && old(certDir).Folder? && old(backup).Absent?)
      ensures aside ==> old(certDir).Folder?
    {
      held, aside := true, false;
      if !certDir.Absent? {
        if !certDir.Folder? { return false, held, aside; }
        aside := true;
        if !backup.Absent? { return false, held, aside; }
        ok := Attempt();
        if !ok { return; }
        backup, certDir := certDir, Absent;
      }
      ok := Attempt();
      if !ok { return; }
      certDir, staging := staging, Absent;
      ok := Attempt();
      if !ok {
        certDir := Absent;
        if aside {
          certDir, backup := backup, Absent;
          aside := false;
        }
        return;
      }
      env, envTemp := envTemp, None;
      held := false;
      if aside {
        ok := Attempt();
        if !ok { return; }
        backup := Absent;
        aside := false;
      }
      ok := true;
    }

    /** The `finally` block. */
    method CleanUp(held: bool, aside: bool)
      modifies this`certDir, this`staging, this`backup, this`envTemp
      ensures staging.Absent? && (held ==> envTemp.None?) && (!held ==> envTemp == old(envTemp))
      ensures (certDir, backup) ==
        if aside && !old(backup).Absent? && old(certDir).Absent? then (old(backup), Absent) else old((certDir, backup))
    {
      if !staging.Absent? { staging := Absent; }
      if held { envTemp := None; }
      if aside && !backup.Absent? && certDir.Absent? { certDir, backup := backup, Absent; }
    }

    /**
     * All or nothing: whichever single operation fails, the pair ends as it was or entirely new and
     * nothing staged remains. Success means the new pair and no backup; it comes exactly when the
     * destination may be replaced and no operation failed. The one failure that leaves the new
     * pair is that of removing the backup, which then still holds the old directory.
     */
    method Prepare(payloads: seq<Payload>, updatedEnv: string) returns (ok: bool)
      requires staging.Absent? && envTemp.None?
      modifies this
      ensures ok <==> Replaceable(old(certDir), old(backup)) && !Blown(old(fuse), fuse)
      ensures staging.Absent? && envTemp.None?
      ensures ok ==> View() == Pair(Folder(Files(payloads)), Some(updatedEnv))
      ensures ok ==> backup == if old(certDir).Folder? then Absent else old(backup)
      ensures !ok ==>
        || (View() == old(View()) && backup == old(backup))
        || (View() == Pair(Folder(Files(payloads)), Some(updatedEnv)) && old(certDir).Folder? && backup == old(certDir))
    {
      ok := Attempt();
      if !ok { return; }
      staging := Folder(map[]);
      var held, aside := false, false;
      ok := Stage(payloads);
      if ok {
        ok, held := StageEnv(updatedEnv);
        if ok { ok, held, aside := SwapIn(); }
      }
      CleanUp(held, aside);
    }
  }
}
