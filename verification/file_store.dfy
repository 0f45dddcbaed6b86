/** The file helpers the orchestrator uses: `loadJSON`, `saveJSON`,
    `createBackup` and `fileExists`, over a store of files held in memory.
    A file holds either a JSON document, as `JSON.parse` would read it, or
    text it does not parse. The store keeps a log of the copies and writes
    made to it. */
module FileHandler {
  import opened Wrappers
  import opened JsonValues

  datatype Contents = Data(value: Json) | Text(text: string)

  datatype Event =
    | Copied(from: string, to: string)      // `fs.copyFileSync(from, to)`
    | Wrote(path: string, contents: Contents)

  /** The files and the log of one moment. */
  datatype Disk = Disk(files: map<string, Contents>, log: seq<Event>)

  /** What a step returned or threw, and the files and log it left
      behind: a step that throws halfway keeps the changes made before. */
  datatype Effect<T> = Effect(result: Outcome<T>, disk: Disk)

  /** Stands for the message `JSON.parse` gives on text it rejects. */
  const ParseError := "JSON.parse rejected the text"

  /** `loadJSON(path)`: both failures are rethrown with the path in front. */
  function LoadJson(files: map<string, Contents>, path: string): (r: Outcome<Json>)
    ensures r.Ok? <==> path in files && files[path].Data?
    ensures r.Ok? ==> r.value == files[path].value
  {
    if path !in files then Throws(Raised("Erro ao carregar " + path + ": Arquivo não encontrado: " + path))
    else if files[path].Text? then Throws(Raised("Erro ao carregar " + path + ": " + ParseError))
    else Ok(files[path].value)
  }

  /** `replace(/[:.]/g, '-')` on the ISO timestamp. */
  function Sanitize(s: string): (r: string)
    ensures |r| == |s| && ':' !in r && '.' !in r
    ensures forall k :: 0 <= k < |s| && s[k] != ':' && s[k] != '.' ==> r[k] == s[k]
  {
    seq(|s|, k requires 0 <= k < |s| => if s[k] == ':' || s[k] == '.' then '-' else s[k])
  }

  /** Where `createBackup` copies `path` at the instant `now`. */
  function BackupPath(path: string, now: string): (r: string)
    ensures |r| >= |path| + 8 && r[..|path|] == path
  {
    path + ".backup." + Sanitize(now)
  }

  /** `saveJSON(path, data)`: the document replaces whatever was there. */
  function SaveIn(disk: Disk, path: string, contents: Contents): (r: Disk)
    ensures r.files.Keys == disk.files.Keys + {path} && r.files[path] == contents
    ensures forall p :: p in disk.files && p != path ==> r.files[p] == disk.files[p]
    ensures r.log == disk.log + [Wrote(path, contents)]
  {
    Disk(disk.files[path := contents], disk.log + [Wrote(path, contents)])
  }

  /** `createBackup(path)`: throws for a missing file, otherwise copies it
      and returns the copy's path. */
  function BackupIn(disk: Disk, path: string, now: string): (r: Outcome<(string, Disk)>)
    ensures r.Throws? <==> path !in disk.files
    ensures r.Ok? ==> var (to, after) := r.value;
      && to == BackupPath(path, now)
      && after.files.Keys == disk.files.Keys + {to}
      && after.files[to] == disk.files[path]
      && (forall p :: p in disk.files && p != to ==> after.files[p] == disk.files[p])
      && after.log == disk.log + [Copied(path, to)]
  {
    if path !in disk.files then Throws(Raised("Arquivo não encontrado para backup: " + path))
    else
      var to := BackupPath(path, now);
      Ok((to, Disk(disk.files[to := disk.files[path]], disk.log + [Copied(path, to)])))
  }

  class FileStore {
    var files: map<string, Contents>
    var log: seq<Event>

    constructor(initial: map<string, Contents>)
      ensures files == initial && log == []
    {
      files := initial;
      log := [];
    }

    function State(): Disk
      reads this
    {
      Disk(files, log)
    }

    /** `fileExists(path)`. */
    predicate Exists(path: string)
      reads this
    {
      path in files
    }

    method Load(path: string) returns (r: Outcome<Json>)
      ensures r == LoadJson(files, path)
    {
      if path !in files {
        r := Throws(Raised("Erro ao carregar " + path + ": Arquivo não encontrado: " + path));
      } else if files[path].Text? {
        r := Throws(Raised("Erro ao carregar " + path + ": " + ParseError));
      } else {
        r := Ok(files[path].value);
      }
    }

    method Save(path: string, contents: Contents)
      modifies this
      ensures State() == SaveIn(old(State()), path, contents)
    {
      files := files[path := contents];
      log := log + [Wrote(path, contents)];
    }

    method CreateBackup(path: string, now: string) returns (r: Outcome<string>)
      modifies this
      ensures var b := BackupIn(old(State()), path, now);
        if b.Ok? then r == Ok(b.value.0) && State() == b.value.1
        else r == Throws(b.error) && State() == old(State())
    {
      if path !in files {
        return Throws(Raised("Arquivo não encontrado para backup: " + path));
      }
      var to := BackupPath(path, now);
      files := files[to := files[path]];
      log := log + [Copied(path, to)];
      r := Ok(to);
    }
  }
}
