/** Registering with systemd over an abstract file system (crates/wx-agent/src/autostart.rs:395-535). */
module Autostart {
  import opened Wrappers
  import opened UnitText

  type Path = string

  datatype Entry = File(text: string) | Link(target: Path) | Directory

  type Files = map<Path, Entry>

  /** Links followed before the lookup is given up. */
  const MAX_LINKS: nat := 40

  /** Where opening the path ends up: at a file, a directory or nothing; none when there are too many links. */
  function Followed(files: Files, path: Path, links: nat): Option<Path>
    decreases links
  {
    if path in files && files[path].Link? then
      if links == 0 then None else Followed(files, files[path].target, links - 1)
    else Some(path)
  }

  function ReadText(files: Files, path: Path): Option<string> {
    var end := Followed(files, path, MAX_LINKS);
    if end.Some? && end.value in files && files[end.value].File? then Some(files[end.value].text) else None
  }

  /** Whether anything is at the other end of the path. */
  predicate Exists(files: Files, path: Path) {
    var end := Followed(files, path, MAX_LINKS);
    end.Some? && end.value in files
  }

  /** The file a write to the path would create or replace. */
  function WriteTarget(files: Files, path: Path): Option<Path> {
    var end := Followed(files, path, MAX_LINKS);
    if end.Some? && !(end.value in files && files[end.value].Directory?) then end else None
  }

  predicate IsDirectory(files: Files, path: Path) {
    path in files && files[path].Directory?
  }

  datatype AutostartError = UnrepresentablePath | Removing(path: Path) | Writing(path: Path) | Replacing(path: Path)

  /** The three places involved: the local copy, the enablement link, and the unit a package shipped. */
  datatype Places = Places(local: Path, link: Path, packaged: Path)
  {
    predicate Valid() { local != link && local != packaged && link != packaged }
  }

  predicate PackagedStarts(files: Files, packaged: Path, exe: string) {
    var text := ReadText(files, packaged);
    text.Some? && ExecStart(text.value) == Some(Quoted(exe))
  }

  function WithUnit(files: Files, at: Places, template: Template, exe: string): Result<(Files, Path), AutostartError> {
    if PackagedStarts(files, at.packaged, exe) then
      if IsDirectory(files, at.local) then Err(Removing(at.local)) else Ok((files - {at.local}, at.packaged))
    else
      var target := WriteTarget(files, at.local);
      if target.None? then Err(Writing(at.local))
      else Ok((files[target.value := File(Rendered(template, exe))], at.local))
  }

  function Installed(files: Files, at: Places, template: Template, exe: string): (Result<(), AutostartError>, Files) {
    if !Representable(exe) then (Err(UnrepresentablePath), files)
    else match WithUnit(files, at, template, exe)
      case Err(e) => (Err(e), files)
      case Ok((after, unit)) =>
        if IsDirectory(after, at.link) then (Err(Replacing(at.link)), after)
        else (Ok(()), (after - {at.link})[at.link := Link(unit)])
  }

  function Uninstalled(files: Files, at: Places): (Result<(), AutostartError>, Files) {
    if IsDirectory(files, at.link) then (Err(Removing(at.link)), files)
    else
      var unlinked := files - {at.link};
      if IsDirectory(unlinked, at.local) then (Err(Removing(at.local)), unlinked)
      else (Ok(()), unlinked - {at.local})
  }

  predicate IsRegistered(files: Files, at: Places) {
    Exists(files, at.link)
  }

  /** What the link names; with no link, where a registration would be written. */
  function RegisteredUnit(files: Files, at: Places): Path {
    if at.link in files && files[at.link].Link? then files[at.link].target else at.local
  }

  datatype Removal = Removed | NotFound | Refused

  class FileSystem {
    var files: Files

    constructor (files: Files)
      ensures this.files == files
    {
      this.files := files;
    }

    /** Removes a file, or a link and never its target. */
    method RemoveFile(path: Path) returns (r: Removal)
      modifies this
      ensures r.Refused? <==> IsDirectory(old(files), path)
      ensures files == if r.Refused? then old(files) else old(files) - {path}
    {
      if path !in files {
        assert files - {path} == files;
        return NotFound;
      }
      if files[path].Directory? {
        return Refused;
      }
      files := files - {path};
      return Removed;
    }

    method Write(path: Path, text: string) returns (ok: bool)
      modifies this
      ensures ok <==> WriteTarget(old(files), path).Some?
      ensures files == if ok then old(files)[WriteTarget(old(files), path).value := File(text)] else old(files)
    {
      var target := WriteTarget(files, path);
      if target.None? {
        return false;
      }
      files := files[target.value := File(text)];
      return true;
    }

    method Symlink(target: Path, path: Path)
      requires path !in files
      modifies this
      ensures files == old(files)[path := Link(target)]
    {
      files := files[path := Link(target)];
    }

    method InstallIn(at: Places, template: Template, exe: string) returns (r: Result<(), AutostartError>)
      requires at.Valid()
      modifies this
      ensures (r, files) == Installed(old(files), at, template, exe)
    {
      if !Representable(exe) {
        return Err(UnrepresentablePath);
      }
      var unit := at.local;
      if PackagedStarts(files, at.packaged, exe) {
        var removal := RemoveFile(at.local);
        if removal.Refused? {
          return Err(Removing(at.local));
        }
        unit := at.packaged;
      } else {
        var written := Write(at.local, Rendered(template, exe));
        if !written {
          return Err(Writing(at.local));
        }
      }
      var removal := RemoveFile(at.link);
      if removal.Refused? {
        return Err(Replacing(at.link));
      }
      Symlink(unit, at.link);
      return Ok(());
    }

    method UninstallIn(at: Places) returns (r: Result<(), AutostartError>)
      requires at.Valid()
      modifies this
      ensures (r, files) == Uninstalled(old(files), at)
    {
      var removal := RemoveFile(at.link);
      if removal.Refused? {
        return Err(Removing(at.link));
      }
      removal := RemoveFile(at.local);
      if removal.Refused? {
        return Err(Removing(at.local));
      }
      return Ok(());
    }
  }

  // --- What registering promises -------------------------------------------

  /** Following the links from a path, at most so many, meets none of the places to avoid. */
  predicate Clear(files: Files, path: Path, links: nat, avoid: set<Path>)
    decreases links
  {
    && path !in avoid
    && (path in files && files[path].Link? ==> links > 0 && Clear(files, files[path].target, links - 1, avoid))
  }

  /** Off the places to avoid, two file systems hold the same links. */
  ghost predicate SameLinks(a: Files, b: Files, avoid: set<Path>) {
    forall p :: p !in avoid ==>
      ((p in a && a[p].Link?) <==> (p in b && b[p].Link?)) && (p in a && a[p].Link? ==> a[p] == b[p])
  }

  /** A clear chain ends in the same place in both. */
  lemma {:induction false} ClearChainKept(a: Files, b: Files, path: Path, links: nat, avoid: set<Path>)
    requires SameLinks(a, b, avoid) && Clear(a, path, links, avoid)
    ensures Followed(a, path, links).Some? && Followed(a, path, links).value !in avoid
    ensures Followed(b, path, links) == Followed(a, path, links)
    decreases links
  {
    if path in a && a[path].Link? {
      ClearChainKept(a, b, a[path].target, links - 1, avoid);
    }
  }

  /** What is so many links down the chain. */
  function Down(files: Files, path: Path, n: nat): Option<Path>
    decreases n
  {
    if n == 0 then Some(path)
    else if path in files && files[path].Link? then Down(files, files[path].target, n - 1)
    else None
  }

  lemma {:induction false} FollowedThrough(files: Files, path: Path, n: nat, links: nat)
    requires Down(files, path, n).Some?
    ensures Followed(files, path, links)
         == if links < n then None else Followed(files, Down(files, path, n).value, links - n)
    decreases n
  {
    if n > 0 && links > 0 {
      FollowedThrough(files, files[path].target, n - 1, links - 1);
    }
  }

  /** A chain that comes back to the link it started from is never followed to an end. */
  lemma {:induction false} LoopNeverEnds(files: Files, link: Path, unit: Path, n: nat, links: nat)
    requires link in files && files[link] == Link(unit) && Down(files, unit, n) == Some(link)
    ensures Followed(files, link, links) == None
    decreases links
  {
    if links > 0 {
      FollowedThrough(files, unit, n, links - 1);
      if links - 1 >= n {
        LoopNeverEnds(files, link, unit, n, links - 1 - n);
      }
    }
  }

  /** A chain that is not clear meets a place to avoid, or is longer than allowed, in both. */
  lemma {:induction false} BlockedChain(a: Files, b: Files, path: Path, links: nat, avoid: set<Path>) returns (n: nat)
    requires SameLinks(a, b, avoid) && !Clear(a, path, links, avoid)
    ensures Followed(b, path, links) == None
         || (n <= links && Down(b, path, n).Some? && Down(b, path, n).value in avoid)
    decreases links
  {
    if path in avoid {
      n := 0;
    } else if links == 0 {
      n := 0;
    } else {
      n := BlockedChain(a, b, a[path].target, links - 1, avoid);
      n := n + 1;
    }
  }

  /** The unit a registration links: the packaged one if that starts this binary, else the local copy. */
  function Unit(files: Files, at: Places, exe: string): Path {
    if PackagedStarts(files, at.packaged, exe) then at.packaged else at.local
  }

  /** What a registration replaces or removes, and the chain of links from its unit must stay off. */
  function Replaced(files: Files, at: Places, exe: string): set<Path> {
    if PackagedStarts(files, at.packaged, exe) then {at.local, at.link} else {at.link}
  }

  lemma LinksKept(files: Files, at: Places, template: Template, exe: string)
    requires at.Valid() && Installed(files, at, template, exe).0.Ok?
    ensures SameLinks(files, Installed(files, at, template, exe).1, Replaced(files, at, exe))
  {
    if !PackagedStarts(files, at.packaged, exe) {
      EndIsNoLink(files, at.local, MAX_LINKS);
    }
  }

  lemma {:induction false} EndIsNoLink(files: Files, path: Path, links: nat)
    ensures var end := Followed(files, path, links);
            end.Some? ==> !(end.value in files && files[end.value].Link?)
    decreases links
  {
    if path in files && files[path].Link? && links > 0 {
      EndIsNoLink(files, files[path].target, links - 1);
    }
  }

  /** Where the chain from the unit is blocked, nothing is at the other end of it any more. */
  lemma BlockedUnit(files: Files, at: Places, template: Template, exe: string, links: nat)
    requires at.Valid() && Installed(files, at, template, exe).0.Ok?
    requires !Clear(files, Unit(files, at, exe), links, Replaced(files, at, exe))
    ensures var once := Installed(files, at, template, exe).1;
            var end := Followed(once, Unit(files, at, exe), links);
            end == None || (end == Some(at.local) && at.local !in once)
  {
    var once := Installed(files, at, template, exe).1;
    var unit := Unit(files, at, exe);
    LinksKept(files, at, template, exe);
    var n := BlockedChain(files, once, unit, links, Replaced(files, at, exe));
    if Followed(once, unit, links) != None {
      FollowedThrough(once, unit, n, links);
      if Down(once, unit, n) == Some(at.link) {
        LoopNeverEnds(once, at.link, unit, n, links - n);
      }
    }
  }

  /** Why a registration did not come about, exactly: systemd cannot name the binary, and nothing is touched; or the
      local copy, or the link, is a directory or an endless chain of links. The link is then as it was. */
  lemma RefusedInstall(files: Files, at: Places, template: Template, exe: string)
    requires at.Valid()
    ensures var (r, after) := Installed(files, at, template, exe);
            var packaged := PackagedStarts(files, at.packaged, exe);
            var blocked := if packaged then IsDirectory(files, at.local) else WriteTarget(files, at.local).None?;
            && (r == Err(UnrepresentablePath) <==> !Representable(exe))
            && (r == Err(Removing(at.local)) <==> Representable(exe) && packaged && blocked)
            && (r == Err(Writing(at.local)) <==> Representable(exe) && !packaged && blocked)
            && (r == Err(Replacing(at.link)) <==> Representable(exe) && !blocked && IsDirectory(files, at.link))
            && (r.Ok? <==> Representable(exe) && !blocked && !IsDirectory(files, at.link))
            && (r.Err? && r.error != Replacing(at.link) ==> after == files)
            && (r.Err? && at.link in files && (files[at.link].Link? || files[at.link].Directory?) ==>
                  at.link in after && after[at.link] == files[at.link])
  {
    EndIsNoLink(files, at.local, MAX_LINKS);
  }

  /** And why one was not taken away: the link, or else the local copy, is a directory. */
  lemma RefusedUninstall(files: Files, at: Places)
    requires at.Valid()
    ensures var (r, after) := Uninstalled(files, at);
            && (r == Err(Removing(at.link)) <==> IsDirectory(files, at.link))
            && (r == Err(Removing(at.local)) <==> !IsDirectory(files, at.link) && IsDirectory(files, at.local))
            && (r.Ok? <==> !IsDirectory(files, at.link) && !IsDirectory(files, at.local))
            && (IsDirectory(files, at.link) ==> after == files)
  {
  }

  /** With no link to read, what is named is where a registration would be written. */
  lemma UnlinkedNamesLocal(files: Files, at: Places)
    requires !(at.link in files && files[at.link].Link?)
    ensures RegisteredUnit(files, at) == at.local
  {
  }

  ghost predicate Runs(files: Files, path: Path, exe: string) {
    var text := ReadText(files, path);
    && text.Some? && ExecStart(text.value) == Some(Quoted(exe))
    && ReadWord(ExecStart(text.value).value) == Some(exe)
  }

  lemma {:induction false} MoreLinks(files: Files, path: Path, links: nat, more: nat)
    requires links <= more && Followed(files, path, links).Some?
    ensures Followed(files, path, more) == Followed(files, path, links)
    decreases links
  {
    if path in files && files[path].Link? {
      MoreLinks(files, files[path].target, links - 1, more - 1);
    }
  }

  /** A registration that succeeds leaves the agent registered, through a unit that starts the binary that did
      the registering, exactly when the links from that unit, one fewer than are followed at all, lead neither
      to the registration's own link nor to the local copy it removed. Otherwise nothing is registered. */
  lemma InstallRegistersExactly(files: Files, at: Places, template: Template, exe: string)
    requires at.Valid() && template.Valid() && Installed(files, at, template, exe).0.Ok?
    ensures var once := Installed(files, at, template, exe).1;
            var clear := Clear(files, Unit(files, at, exe), MAX_LINKS - 1, Replaced(files, at, exe));
            && (IsRegistered(once, at) <==> clear)
            && (Runs(once, at.link, exe) <==> clear)
            && RegisteredUnit(once, at) == Unit(files, at, exe)
  {
    var once := Installed(files, at, template, exe).1;
    var unit := Unit(files, at, exe);
    var avoid := Replaced(files, at, exe);
    assert Followed(once, at.link, MAX_LINKS) == Followed(once, unit, MAX_LINKS - 1);
    if Clear(files, unit, MAX_LINKS - 1, avoid) {
      LinksKept(files, at, template, exe);
      ClearChainKept(files, once, unit, MAX_LINKS - 1, avoid);
      MoreLinks(files, unit, MAX_LINKS - 1, MAX_LINKS);
      RenderedStarts(template, exe);
      ReadsBackExactlyWhenRepresentable(exe);
    } else {
      BlockedUnit(files, at, template, exe, MAX_LINKS - 1);
    }
  }

  /** Switching from the local copy to the packaged unit, and interrupted once the copy is gone: the link now
      leads nowhere, which reads as not registered. */
  lemma InterruptionUnregisters(files: Files, at: Places, template: Template, exe: string)
    requires at.Valid() && PackagedStarts(files, at.packaged, exe)
    requires at.link in files && files[at.link] == Link(at.local) && !IsDirectory(files, at.local)
    ensures var after := WithUnit(files, at, template, exe);
            after.Ok? && !IsRegistered(after.value.0, at)
  {
    var after := files - {at.local};
    assert Followed(after, at.local, MAX_LINKS - 1) == Some(at.local);
    assert Followed(after, at.link, MAX_LINKS) == Some(at.local);
  }

  /** With the registration's link in place, the packaged unit leads to the very file the local copy is
      written to. */
  predicate PackagedIsLocal(files: Files, at: Places) {
    && WriteTarget(files, at.local).Some?
    && Followed(files[at.link := Link(at.local)], at.packaged, MAX_LINKS) == WriteTarget(files, at.local)
  }

  /** Registering twice leaves what registering once does exactly when the links from the unit lead to
      nothing the first registration replaced and, for the local copy, the packaged unit does not lead to it. */
  lemma InstallTwiceExactly(files: Files, at: Places, template: Template, exe: string)
    requires at.Valid() && template.Valid() && Installed(files, at, template, exe).0.Ok?
    ensures var once := Installed(files, at, template, exe).1;
            (Installed(once, at, template, exe) == (Ok(()), once) <==>
              && Clear(files, Unit(files, at, exe), MAX_LINKS, Replaced(files, at, exe))
              && (PackagedStarts(files, at.packaged, exe) || !PackagedIsLocal(files, at)))
  {
    if PackagedStarts(files, at.packaged, exe) {
      PackagedTwice(files, at, template, exe);
    } else {
      LocalTwice(files, at, template, exe);
    }
  }

  lemma PackagedTwice(files: Files, at: Places, template: Template, exe: string)
    requires at.Valid() && Installed(files, at, template, exe).0.Ok? && PackagedStarts(files, at.packaged, exe)
    ensures var once := Installed(files, at, template, exe).1;
            (Installed(once, at, template, exe) == (Ok(()), once) <==>
              Clear(files, at.packaged, MAX_LINKS, {at.local, at.link}))
  {
    var once := Installed(files, at, template, exe).1;
    if Clear(files, at.packaged, MAX_LINKS, {at.local, at.link}) {
      LinksKept(files, at, template, exe);
      ClearChainKept(files, once, at.packaged, MAX_LINKS, {at.local, at.link});
      assert once - {at.local} == once;
      assert (once - {at.link})[at.link := Link(at.packaged)] == once;
    } else {
      BlockedUnit(files, at, template, exe, MAX_LINKS);
      assert !PackagedStarts(once, at.packaged, exe);
      assert Followed(once, at.local, MAX_LINKS) == Some(at.local);
      assert at.local in Installed(once, at, template, exe).1;
    }
  }

  lemma LocalTwice(files: Files, at: Places, template: Template, exe: string)
    requires at.Valid() && template.Valid()
    requires Installed(files, at, template, exe).0.Ok? && !PackagedStarts(files, at.packaged, exe)
    ensures var once := Installed(files, at, template, exe).1;
            (Installed(once, at, template, exe) == (Ok(()), once) <==>
              Clear(files, at.local, MAX_LINKS, {at.link}) && !PackagedIsLocal(files, at))
  {
    var once := Installed(files, at, template, exe).1;
    if Clear(files, at.local, MAX_LINKS, {at.link}) {
      LinksKept(files, at, template, exe);
      ClearChainKept(files, once, at.local, MAX_LINKS, {at.link});
      PackagedStartsAfterLocal(files, at, template, exe);
      if PackagedIsLocal(files, at) {
        assert Installed(once, at, template, exe).0.Ok? ==> at.local !in Installed(once, at, template, exe).1;
      } else {
        var target := WriteTarget(files, at.local).value;
        assert once[target := File(Rendered(template, exe))] == once;
        assert (once - {at.link})[at.link := Link(at.local)] == once;
      }
    } else {
      BlockedUnit(files, at, template, exe, MAX_LINKS);
      if PackagedStarts(once, at.packaged, exe) {
        assert at.local in once;
      }
    }
  }

  /** Two file systems with the same links follow every path alike. */
  lemma {:induction false} LinksDecide(a: Files, b: Files, path: Path, links: nat)
    requires SameLinks(a, b, {})
    ensures Followed(a, path, links) == Followed(b, path, links)
    decreases links
  {
    if path in a && a[path].Link? && links > 0 {
      LinksDecide(a, b, a[path].target, links - 1);
    }
  }

  /** With the link in place, the packaged unit leads where it led before or to the file the local copy is
      written to. */
  lemma LinkedLeads(files: Files, at: Places)
    requires at.Valid() && Clear(files, at.local, MAX_LINKS, {at.link}) && !IsDirectory(files, at.link)
    ensures var end := Followed(files[at.link := Link(at.local)], at.packaged, MAX_LINKS);
            end == None || end == Followed(files, at.local, MAX_LINKS)
            || (end == Followed(files, at.packaged, MAX_LINKS) && end != Some(at.link))
  {
    var linked := files[at.link := Link(at.local)];
    if Clear(files, at.packaged, MAX_LINKS, {at.link}) {
      ClearChainKept(files, linked, at.packaged, MAX_LINKS, {at.link});
    } else {
      var n := BlockedChain(files, linked, at.packaged, MAX_LINKS, {at.link});
      if Followed(linked, at.packaged, MAX_LINKS) != None {
        FollowedThrough(linked, at.packaged, n, MAX_LINKS);
        assert Followed(linked, at.link, MAX_LINKS - n) == Followed(linked, at.local, MAX_LINKS - n - 1);
        ClearChainKept(files, linked, at.local, MAX_LINKS, {at.link});
        MoreLinks(linked, at.local, MAX_LINKS - n - 1, MAX_LINKS);
      }
    }
  }

  /** Writing the local copy changes the link and the file written to. */
  lemma LocalWritten(files: Files, at: Places, template: Template, exe: string)
    requires at.Valid() && Clear(files, at.local, MAX_LINKS, {at.link})
    requires Installed(files, at, template, exe).0.Ok? && !PackagedStarts(files, at.packaged, exe)
    ensures var target := Followed(files, at.local, MAX_LINKS);
            && target.Some? && target.value != at.link
            && !(target.value in files && files[target.value].Link?) && WriteTarget(files, at.local) == target
            && Installed(files, at, template, exe).1
            == files[at.link := Link(at.local)][target.value := File(Rendered(template, exe))]
  {
    ClearChainKept(files, files, at.local, MAX_LINKS, {at.link});
    EndIsNoLink(files, at.local, MAX_LINKS);
    hide Rendered, PackagedStarts, Clear, Followed;
  }

  /** After the local copy is written, the packaged unit starts this binary exactly if it leads to that copy. */
  lemma PackagedStartsAfterLocal(files: Files, at: Places, template: Template, exe: string)
    requires at.Valid() && template.Valid() && Clear(files, at.local, MAX_LINKS, {at.link})
    requires Installed(files, at, template, exe).0.Ok? && !PackagedStarts(files, at.packaged, exe)
    ensures PackagedStarts(Installed(files, at, template, exe).1, at.packaged, exe) <==> PackagedIsLocal(files, at)
  {
    hide ExecStart, Rendered, Quoted, Clear, Followed, WriteTarget;
    LocalWritten(files, at, template, exe);
    var target := Followed(files, at.local, MAX_LINKS).value;
    var linked := files[at.link := Link(at.local)];
    LinkedLeads(files, at) by {
      assert !IsDirectory(files, at.link);
    }
    RenderedStarts(template, exe);
    hide Installed;
    var once := linked[target := File(Rendered(template, exe))];
    LinksDecide(linked, once, at.packaged, MAX_LINKS);
  }

  /** Deregistering removes the link and the local copy and nothing else, and ends unregistered; doing it
      again changes nothing. Nothing to remove is success. */
  lemma UninstallUnregisters(files: Files, at: Places)
    requires at.Valid() && Uninstalled(files, at).0.Ok?
    ensures var after := Uninstalled(files, at).1;
            && !IsRegistered(after, at)
            && after == files - {at.link, at.local}
            && Uninstalled(after, at) == (Ok(()), after)
  {
    var after := Uninstalled(files, at).1;
    assert after == files - {at.link, at.local};
    assert after - {at.link} == after && after - {at.local} == after;
  }

  /** Registering and deregistering leave what deregistering alone does exactly when the local copy was not
      written through a link to some other file, or that file already held the unit. */
  lemma InstallThenUninstallExactly(files: Files, at: Places, template: Template, exe: string)
    requires at.Valid() && Installed(files, at, template, exe).0.Ok?
    ensures var (r, after) := Uninstalled(Installed(files, at, template, exe).1, at);
            && r.Ok?
            && (after == files - {at.link, at.local} <==>
                  || PackagedStarts(files, at.packaged, exe)
                  || WriteTarget(files, at.local) == Some(at.local)
                  || WriteTarget(files, at.local) == Some(at.link)
                  || (WriteTarget(files, at.local).value in files
                      && files[WriteTarget(files, at.local).value] == File(Rendered(template, exe))))
  {
    var once := Installed(files, at, template, exe).1;
    var after := once - {at.link} - {at.local};
    if !PackagedStarts(files, at.packaged, exe) {
      var target := WriteTarget(files, at.local).value;
      if target != at.local && target != at.link {
        assert after[target] == File(Rendered(template, exe));
        if target in files && files[target] == File(Rendered(template, exe)) {
          assert after == files - {at.link, at.local};
        } else {
          assert target in after && (target in files ==> (files - {at.link, at.local})[target] == files[target]);
        }
      } else {
        assert after == files - {at.link, at.local};
      }
    } else {
      assert after == files - {at.link, at.local};
    }
  }

  /** A packaged unit that is a link to the local copy: registering takes the copy away, links what is left,
      and reports success with nothing registered. */
  lemma PackagedLinkToLocal(at: Places, template: Template, exe: string)
    requires at.Valid() && template.Valid() && Representable(exe)
    ensures var files := map[at.local := File(Rendered(template, exe)), at.packaged := Link(at.local)];
            var (r, once) := Installed(files, at, template, exe);
            r.Ok? && !IsRegistered(once, at)
  {
    var files := map[at.local := File(Rendered(template, exe)), at.packaged := Link(at.local)];
    assert Followed(files, at.packaged, MAX_LINKS) == Followed(files, at.local, MAX_LINKS - 1) == Some(at.local);
    RenderedStarts(template, exe);
    InstallRegistersExactly(files, at, template, exe);
    assert Unit(files, at, exe) == at.packaged && files[at.packaged].target in Replaced(files, at, exe);
  }

  /** A local copy that is a link to the packaged unit: the first registration writes the packaged unit and
      keeps the link, the second removes it. */
  lemma LocalLinkToPackaged(at: Places, template: Template, exe: string)
    requires at.Valid() && template.Valid() && Representable(exe)
    ensures var files := map[at.local := Link(at.packaged)];
            var once := Installed(files, at, template, exe).1;
            at.local in once && at.local !in Installed(once, at, template, exe).1
  {
    var files := map[at.local := Link(at.packaged)];
    assert Followed(files, at.local, MAX_LINKS) == Followed(files, at.packaged, MAX_LINKS - 1) == Some(at.packaged);
    assert !PackagedStarts(files, at.packaged, exe);
    var once := Installed(files, at, template, exe).1;
    assert Followed(once, at.packaged, MAX_LINKS) == Some(at.packaged);
    RenderedStarts(template, exe);
  }

  /** With neither unit a link, as the packages leave them, all three hold. */
  lemma OrdinaryIsClear(files: Files, at: Places, template: Template, exe: string)
    requires at.Valid() && template.Valid() && Installed(files, at, template, exe).0.Ok?
    requires !(at.local in files && files[at.local].Link?) && !(at.packaged in files && files[at.packaged].Link?)
    ensures var once := Installed(files, at, template, exe).1;
            && IsRegistered(once, at) && Runs(once, at.link, exe)
            && Installed(once, at, template, exe) == (Ok(()), once)
            && Uninstalled(once, at) == (Ok(()), files - {at.link, at.local})
  {
    InstallRegistersExactly(files, at, template, exe);
    InstallTwiceExactly(files, at, template, exe);
    InstallThenUninstallExactly(files, at, template, exe);
  }

  /** The file the packaged unit leads to, usually itself, stays as it is unless it is a place registering replaces
      or the local copy leads to it too and is written through; its own owner's permissions are not part of
      the model. */
  lemma PackagedUnitRewrittenExactlyThroughALink(files: Files, at: Places, template: Template, exe: string, unit: Path)
    requires at.Valid() && template.Valid()
    requires Followed(files, at.packaged, MAX_LINKS) == Some(unit) && unit in files && files[unit].File?
    ensures var after := Installed(files, at, template, exe).1;
            (!(unit in after && after[unit] == files[unit]) <==>
              && Representable(exe)
              && (|| (WriteTarget(files, at.local) == Some(unit) && !PackagedStarts(files, at.packaged, exe))
                  || unit == at.local
                  || (unit == at.link && WithUnit(files, at, template, exe).Ok?)))
  {
    if Representable(exe) {
      RenderedStarts(template, exe);
    }
    assert unit == at.local ==> WriteTarget(files, at.local) == Some(unit);
  }
}
