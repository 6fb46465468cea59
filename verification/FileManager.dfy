/** Paths, and the directories made on the way to a file. */
module FileManager {
  import opened Text
  import opened Config

  datatype Node = Directory | Regular(content: string)

  /** The part of a path before its last slash is a directory, or there is no slash. */
  predicate ParentIsDirectory(nodes: map<string, Node>, path: string) {
    var cut := LastIndexOf(path, '/');
    cut <= 0 || (path[..cut] in nodes && nodes[path[..cut]].Directory?)
  }

  /** Everything that exists has a name and is in a directory that exists. */
  predicate TreeClosed(nodes: map<string, Node>) {
    "" !in nodes && forall path :: path in nodes ==> ParentIsDirectory(nodes, path)
  }

  /** A path without empty segments, relative or from the root. */
  predicate Plain(path: string) {
    forall i :: 0 < i < |path| && path[i] == '/' ==> path[i - 1] != '/'
  }

  predicate IsDirectoryAt(nodes: map<string, Node>, path: string) {
    path in nodes && nodes[path].Directory?
  }

  predicate IsFileAt(nodes: map<string, Node>, path: string) {
    path in nodes && !nodes[path].Directory?
  }

  /** A plain path under an existing node has only directories above that node. */
  lemma {:induction false} AncestorsExist(nodes: map<string, Node>, path: string, i: nat, j: nat)
    requires TreeClosed(nodes) && Plain(path)
    requires 0 < j < i <= |path| && path[j] == '/' && path[..i] in nodes
    ensures IsDirectoryAt(nodes, path[..j])
    decreases i
  {
    var cut := LastIndexOf(path[..i], '/');
    assert path[..i][j] == '/';
    assert path[..i][..cut] == path[..cut];
    if j < cut {
      AncestorsExist(nodes, path, cut, j);
    }
  }

  class FileSystem {
    var nodes: map<string, Node>

    constructor (nodes: map<string, Node>)
      ensures this.nodes == nodes
    {
      this.nodes := nodes;
    }

    /** `mkdir`, whose failures the callers ignore. */
    method Mkdir(path: string)
      modifies this
      ensures nodes == if path != "" && path !in old(nodes) && ParentIsDirectory(old(nodes), path)
                       then old(nodes)[path := Directory] else old(nodes)
    {
      if path != "" && path !in nodes && ParentIsDirectory(nodes, path) {
        nodes := nodes[path := Directory];
      }
    }
  }

  lemma {:induction false} MkdirKeepsClosed(nodes: map<string, Node>, path: string)
    requires TreeClosed(nodes) && ParentIsDirectory(nodes, path) && path !in nodes && path != ""
    ensures TreeClosed(nodes[path := Directory])
  {
  }

  /** `_appendFileName`: just one slash between the two. */
  function Joined(path: string, name: string): (joined: string)
    requires path != ""
    ensures |path| <= |joined|
  {
    var slashed := path[|path| - 1] == '/';
    var leading := name != "" && name[0] == '/';
    if !leading && !slashed then path + "/" + name
    else if leading && slashed then path + name[1..]
    else path + name
  }

  /** Where the file of a URI is: the rest of the URI under the root of its location. */
  function Located(uri: string, location: Location): (path: string)
    requires |location.id| <= |uri| && location.root != ""
    ensures |location.root| <= |path|
  {
    if uri[|location.id|..] == "" then location.root else Joined(location.root, uri[|location.id|..])
  }

  function WithoutTrailingSlash(path: string): string {
    if path != "" && path[|path| - 1] == '/' then path[..|path| - 1] else path
  }

  function WithoutLeadingSlash(name: string): string {
    if name != "" && name[0] == '/' then name[1..] else name
  }

  lemma JoinedBySlash(path: string, name: string)
    requires path != ""
    ensures Joined(path, name) == WithoutTrailingSlash(path) + "/" + WithoutLeadingSlash(name)
  {
  }

  /** The id of the location is cut off a URI, and what follows it is put under the root. */
  lemma {:induction false} LocatedBelow(location: Location, rest: string)
    requires location.root != ""
    ensures var uri := location.id + rest;
            Located(uri, location) == if rest == "" then location.root
                                      else WithoutTrailingSlash(location.root) + "/" + WithoutLeadingSlash(rest)
  {
    assert (location.id + rest)[|location.id|..] == rest;
    JoinedBySlash(location.root, rest);
  }

  class FileManager {
    const fs: FileSystem
    var absolutePath: string
    var isExist: bool
    var isDirectory: bool
    var conflict: bool

    ghost predicate Informed()
      reads this, fs
    {
      isExist == (absolutePath in fs.nodes) && isDirectory == IsDirectoryAt(fs.nodes, absolutePath)
    }

    /** The path of a URI below its location. */
    constructor (fs: FileSystem, uri: string, location: Location)
      requires |location.id| <= |uri| && location.root != ""
      ensures this.fs == fs && Informed()
      ensures absolutePath == Located(uri, location)
    {
      this.fs := fs;
      absolutePath, isExist, isDirectory, conflict := location.root, false, false, false;
      new;
      var fileName := uri[|location.id|..];
      if fileName != "" {
        AppendFileName(fileName);
      }
      UpdateFileInfo();
    }

    method AppendToPath(name: string)
      requires absolutePath != ""
      modifies this
      ensures absolutePath == Joined(old(absolutePath), name) && Informed()
    {
      AppendFileName(name);
      UpdateFileInfo();
    }

    method AppendFileName(name: string)
      requires absolutePath != ""
      modifies this`absolutePath
      ensures absolutePath == Joined(old(absolutePath), name)
    {
      var back := name;
      if (back == "" || back[0] != '/') && absolutePath[|absolutePath| - 1] != '/' {
        absolutePath := absolutePath + "/";
      } else if back != "" && back[0] == '/' && absolutePath[|absolutePath| - 1] == '/' {
        back := back[1..];
      }
      absolutePath := absolutePath + back;
    }

    method UpdateFileInfo()
      modifies this`isExist, this`isDirectory
      ensures Informed()
    {
      isExist := false;
      isDirectory := false;
      if absolutePath !in fs.nodes {
        return;
      }
      isExist := true;
      isDirectory := fs.nodes[absolutePath].Directory?;
    }

    method IsDirExist(path: string) returns (found: bool)
      modifies this`conflict
      ensures found == IsDirectoryAt(fs.nodes, path)
      ensures conflict == (old(conflict) || IsFileAt(fs.nodes, path))
    {
      if path !in fs.nodes {
        return false;
      }
      if fs.nodes[path].Directory? {
        return true;
      }
      conflict := true;
      return false;
    }

    /** Makes the missing directories of the path, unless a file is in the way. On a
        closed tree it is all or nothing. */
    method IsConflict() returns (found: bool)
      modifies this`conflict, fs
      ensures forall p :: p in old(fs.nodes) ==> p in fs.nodes && fs.nodes[p] == old(fs.nodes)[p]
      ensures TreeClosed(old(fs.nodes)) && Plain(absolutePath) && '/' in absolutePath ==>
                && found == Blocked(old(fs.nodes), absolutePath)
                && TreeClosed(fs.nodes)
                && (if found then fs.nodes == old(fs.nodes)
                    else DirectoriesMade(old(fs.nodes), fs.nodes, absolutePath))
    {
      ghost var before := fs.nodes;
      ghost var plain := TreeClosed(before) && Plain(absolutePath) && '/' in absolutePath;
      conflict := false;
      var delim := IndexOf(absolutePath, '/');
      var path := absolutePath[..delim];
      while true
        invariant delim <= |absolutePath| && path == absolutePath[..delim] && !conflict
        invariant forall p :: p in before ==> p in fs.nodes && fs.nodes[p] == before[p]
        invariant plain ==> delim < |absolutePath| && absolutePath[delim] == '/' && Made(before, fs.nodes, absolutePath, delim)
        decreases |absolutePath| - delim
      {
        ghost var nodes := fs.nodes;
        var isDir := IsDirExist(path);
        if isDir {
        } else if conflict {
          break;
        } else {
          fs.Mkdir(path);
        }
        var next := if delim == |absolutePath| then delim else IndexFrom(absolutePath, '/', delim + 1);
        if plain {
          MadeOneMore(before, nodes, fs.nodes, absolutePath, delim, next);
        }
        if next == |absolutePath| {
          break;
        }
        delim := next;
        path := absolutePath[..delim];
      }
      return conflict;
    }
  }

  /** A file stands where a directory of the path is needed. */
  ghost predicate Blocked(nodes: map<string, Node>, path: string) {
    exists i :: 0 < i < |path| && path[i] == '/' && IsFileAt(nodes, path[..i])
  }

  /** All directories of the path exist, and only missing ones were added. */
  ghost predicate DirectoriesMade(before: map<string, Node>, after: map<string, Node>, path: string) {
    && (forall i :: 0 < i < |path| && path[i] == '/' ==> IsDirectoryAt(after, path[..i]))
    && (forall p :: p in before ==> p in after && after[p] == before[p])
    && (forall p :: p in after && p !in before ==>
          after[p] == Directory && exists i :: 0 < i < |path| && path[i] == '/' && p == path[..i])
  }

  /** The directories up to `delim` exist; if any was made, nothing is beyond it. */
  ghost predicate Made(before: map<string, Node>, nodes: map<string, Node>, path: string, delim: nat) {
    && TreeClosed(nodes)
    && (forall i :: 0 < i < delim && i < |path| && path[i] == '/' ==> IsDirectoryAt(nodes, path[..i]))
    && (forall p :: p in before ==> p in nodes && nodes[p] == before[p])
    && (forall p :: p in nodes && p !in before ==>
          nodes[p] == Directory && exists i :: 0 < i < |path| && path[i] == '/' && p == path[..i])
    && (nodes != before ==> forall i :: delim <= i && 0 < i < |path| && path[i] == '/' ==> path[..i] !in nodes)
  }

  lemma {:induction false} MadeOneMore(before: map<string, Node>, nodes: map<string, Node>, after: map<string, Node>,
                                       path: string, delim: nat, next: nat)
    requires Plain(path) && delim < next <= |path| && path[delim] == '/' && Made(before, nodes, path, delim)
    requires forall k :: delim < k < next ==> path[k] != '/'
    requires !IsFileAt(nodes, path[..delim])
    requires after == if path[..delim] !in nodes && path[..delim] != "" && ParentIsDirectory(nodes, path[..delim])
                      then nodes[path[..delim] := Directory] else nodes
    ensures Made(before, after, path, next)
  {
    var part := path[..delim];
    if part !in nodes && part != "" {
      var cut := LastIndexOf(part, '/');
      if cut >= 0 {
        assert path[cut] == '/' && part[..cut] == path[..cut];
      }
      MadeNew(before, nodes, path, delim, next);
    }
  }

  lemma {:induction false} MadeNew(before: map<string, Node>, nodes: map<string, Node>, path: string, delim: nat, next: nat)
    requires Plain(path) && delim < next <= |path| && path[delim] == '/' && Made(before, nodes, path, delim)
    requires forall k :: delim < k < next ==> path[k] != '/'
    requires delim > 0 && path[..delim] !in nodes && ParentIsDirectory(nodes, path[..delim])
    ensures Made(before, nodes[path[..delim] := Directory], path, next)
  {
    hide TreeClosed, ParentIsDirectory, Plain;
    var part := path[..delim];
    var after := nodes[part := Directory];
    MkdirKeepsClosed(nodes, part);
    forall i | next <= i < |path| && path[i] == '/' ensures path[..i] !in after {
      NothingBeyond(nodes, path, i, delim);
    }
    forall i | 0 < i < next && i < |path| && path[i] == '/' ensures IsDirectoryAt(after, path[..i]) {
      if i < delim {
        assert IsDirectoryAt(nodes, path[..i]);
      }
    }
  }

  lemma {:induction false} NothingBeyond(nodes: map<string, Node>, path: string, i: nat, delim: nat)
    requires TreeClosed(nodes) && Plain(path)
    requires 0 < delim < i <= |path| && path[delim] == '/' && path[..delim] !in nodes
    ensures path[..i] !in nodes[path[..delim] := Directory]
  {
    if path[..i] in nodes {
      AncestorsExist(nodes, path, i, delim);
    }
    assert |path[..i]| != |path[..delim]|;
  }
}
