/**
 * What the two configuration factories share (configuration/factory.go):
 * the errors a load can end in, the file system they read, `readConfigFile`
 * over it, and `copyActionsFromTo`.
 *
 * The file system is an oracle: a map from path to entry. A regular file is
 * given already decoded, once as a whole configuration document and once as
 * a settings-only document, because the two decoders read the same bytes
 * into different records; either decode may fail with the decoder's message.
 */
module Factory {
  import opened Wrappers
  import opened Hooks

  /** The ways a load ends without a configuration. */
  datatype LoadError =
    | StatFailed(path: string)
    | IsDirectory(path: string)
    | CannotRead(path: string)
    | ParseFailed(path: string, reason: string)
    | NoHooks
    | InvalidAction(hook: string)
    | IncludeNotFound(path: string)
    /** A nil dereference in the source: a panic, not a returned error. */
    | Panic(reason: string)
    /** `log.Fatalf` in the source: the process exits. */
    | Fatal(reason: string)
  {
    /** The error text the source produces. */
    function Message(): string {
      match this
      case StatFailed(p) => "stat " + p + ": no such file or directory"
      case IsDirectory(p) => "given configuration path is a directory: " + p
      case CannotRead(p) => "could not read configuration file at: " + p
      case ParseFailed(p, reason) => "unable to parse json: " + p + " " + reason
      case NoHooks => "no hooks config found"
      case InvalidAction(h) => "invalid action config in " + h
      case IncludeNotFound(p) => "config to include not found: " + p
      case Panic(reason) => reason
      case Fatal(reason) => reason
    }
  }

  /** The result of decoding a file's bytes into a document of type `D`. */
  datatype Decoded<D> = Parsed(doc: D) | Unparsable(reason: string)

  /** A file system entry; `C` is the configuration document type, `S` the settings document type. */
  datatype FileEntry<C, S> =
    | Directory
    | Unreadable
    | Regular(asConfig: Decoded<C>, asSettings: Decoded<S>)

  type FileSystem<C, S> = map<string, FileEntry<C, S>>

  /** `io.FileExists`. */
  predicate FileExists<C, S>(fs: FileSystem<C, S>, path: string) {
    path in fs
  }

  /** `readConfigFile`: the content of a regular file, or why it cannot be read. */
  function ReadConfigFile<C, S>(fs: FileSystem<C, S>, path: string): (r: Result<FileEntry<C, S>, LoadError>)
    ensures r.Success? <==> path in fs && fs[path].Regular?
    ensures r.Success? ==> r.value == fs[path]
    ensures path !in fs ==> r == Failure(StatFailed(path))
    ensures path in fs && fs[path].Directory? ==> r == Failure(IsDirectory(path))
    ensures path in fs && fs[path].Unreadable? ==> r == Failure(CannotRead(path))
  {
    if path !in fs then Failure(StatFailed(path))
    else match fs[path]
      case Directory => Failure(IsDirectory(path))
      case Unreadable => Failure(CannotRead(path))
      case Regular(_, _) => Success(fs[path])
  }

  /** The index of the last '/' in `path`, if any. */
  function LastSlash(path: string): (r: Option<nat>)
    ensures r.Some? ==> r.value < |path| && path[r.value] == '/'
    ensures r.Some? ==> forall j :: r.value < j < |path| ==> path[j] != '/'
    ensures r.None? ==> forall j :: 0 <= j < |path| ==> path[j] != '/'
  {
    if path == [] then None
    else if path[|path| - 1] == '/' then Some(|path| - 1)
    else LastSlash(path[..|path| - 1])
  }

  /**
   * `filepath.Dir` on a clean path: everything before the last '/', "/" when
   * that is the only slash at the front, and "." when there is no slash.
   */
  function DirOf(path: string): (dir: string)
    ensures LastSlash(path).None? ==> dir == "."
    ensures LastSlash(path) == Some(0) ==> dir == "/"
    ensures LastSlash(path).Some? && LastSlash(path).value > 0 ==> dir == path[..LastSlash(path).value]
  {
    match LastSlash(path)
    case None => "."
    case Some(i) => if i == 0 then "/" else path[..i]
  }

  /**
   * `copyActionsFromTo`: appends every action of `from`, in order, to `to`;
   * `from` keeps its actions and `to` its enabled flag.
   */
  method CopyActionsFromTo(from: Hook, to: Hook)
    modifies to
    ensures to.actions == old(to.actions) + old(from.actions)
    ensures to.enabled == old(to.enabled)
    ensures from != to ==> from.actions == old(from.actions)
  {
    var actions := from.GetActions();
    var i := 0;
    while i < |actions|
      invariant 0 <= i <= |actions|
      invariant to.actions == old(to.actions) + actions[..i]
      invariant to.enabled == old(to.enabled)
    {
      to.AddAction(actions[i]);
      i := i + 1;
    }
    assert actions[..i] == actions;
  }
}
