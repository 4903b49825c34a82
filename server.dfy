/** The file side of the local server (server.js): the names it derives from
    a request (POSIX `path.basename` and `path.extname`), the content type of
    a static file, the row-deleting rewrite of `/api/delete-row`, and a data
    directory whose files `/api/save` and `/api/delete-row` replace after a
    `.backup` copy. */
module Server {
  import opened Text
  import opened Records

  /** `s.endsWith(suffix)`. */
  predicate EndsWith(s: string, suffix: string) {
    |suffix| <= |s| && s[|s| - |suffix|..] == suffix
  }

  // ---------------------------------------------------------------------
  // Paths

  /** `p` without the slashes at its end. */
  function StripTrailingSlashes(p: string): (r: string)
    ensures |r| <= |p| && r == p[..|r|]
    ensures r == [] || r[|r| - 1] != '/'
    ensures forall i :: |r| <= i < |p| ==> p[i] == '/'
    decreases |p|
  {
    if |p| > 0 && p[|p| - 1] == '/' then StripTrailingSlashes(p[..|p| - 1]) else p
  }

  /** The text after the last slash of `p` (all of `p` when it has none). */
  function AfterLastSlash(p: string): (r: string)
    ensures '/' !in r
    ensures |r| <= |p| && r == p[|p| - |r|..]
    ensures |r| < |p| ==> p[|p| - |r| - 1] == '/'
    decreases |p|
  {
    if |p| == 0 || p[|p| - 1] == '/' then ""
    else
      var rest := AfterLastSlash(p[..|p| - 1]);
      assert p[..|p| - 1][|p| - 1 - |rest|..] + [p[|p| - 1]] == p[|p| - 1 - |rest|..];
      rest + [p[|p| - 1]]
  }

  /** `path.basename(p)`: the last component, trailing slashes ignored. */
  function Basename(p: string): (name: string)
    ensures '/' !in name
  {
    AfterLastSlash(StripTrailingSlashes(p))
  }

  /** A name without slashes is its own basename, so taking the basename
      twice is taking it once. */
  lemma BasenameIdempotent(p: string)
    ensures Basename(Basename(p)) == Basename(p)
  {
    var b := Basename(p);
    assert StripTrailingSlashes(b) == b by {
      if |b| > 0 { assert b[|b| - 1] in b; }
    }
    assert forall i :: 0 <= i < |b| ==> b[i] != '/';
  }

  /** The component after the last slash is what `basename` returns:
      whatever directories a request names, only the file name is kept. */
  lemma BasenameOfChild(dir: string, name: string)
    requires name != [] && '/' !in name
    ensures Basename(dir + "/" + name) == name
  {
    var p := dir + "/" + name;
    assert p[|p| - 1] == name[|name| - 1] && name[|name| - 1] in name;
    assert StripTrailingSlashes(p) == p;
    AfterLastSlashOfChild(dir, name);
  }

  lemma {:induction false} AfterLastSlashOfChild(dir: string, name: string)
    requires '/' !in name
    ensures AfterLastSlash(dir + "/" + name) == name
    decreases |name|
  {
    var p := dir + "/" + name;
    if name != [] {
      var init := name[..|name| - 1];
      forall x | x in init ensures x != '/' {
        var i :| 0 <= i < |init| && init[i] == x;
        assert name[i] == x;
      }
      assert p[..|p| - 1] == dir + "/" + init;
      assert name[|name| - 1] in name;
      AfterLastSlashOfChild(dir, init);
      assert init + [name[|name| - 1]] == name;
    } else {
      assert p[|p| - 1] == '/';
    }
  }

  /** The index of the last dot of `c`, or -1. */
  function LastDot(c: string): (d: int)
    ensures -1 <= d < |c|
    ensures d >= 0 ==> c[d] == '.'
    ensures forall i :: d < i < |c| ==> c[i] != '.'
    decreases |c|
  {
    if |c| == 0 then -1
    else if c[|c| - 1] == '.' then |c| - 1
    else LastDot(c[..|c| - 1])
  }

  /** `path.extname(p)`: the last component's text from its last dot on;
      empty when that component has no dot, when its only text before the
      last dot is nothing (a dot file), or when it is `..`. */
  function Extname(p: string): (ext: string)
    ensures ext == [] || (ext[0] == '.' && '.' !in ext[1..] && '/' !in ext)
    ensures ext != [] ==> |ext| < |Basename(p)| && EndsWith(Basename(p), ext)
  {
    var c := Basename(p);
    var d := LastDot(c);
    if d <= 0 || c == ".." then ""
    else
      ExtensionShape(c, d);
      c[d..]
  }

  /** The text of a slash-free name from its last dot on is a dot followed
      by text without dots or slashes, and a proper suffix of the name when
      that dot is not the first character. */
  lemma ExtensionShape(c: string, d: int)
    requires '/' !in c
    requires 0 < d < |c| && c[d] == '.'
    requires forall i :: d < i < |c| ==> c[i] != '.'
    ensures var e := c[d..];
      e[0] == '.' && '.' !in e[1..] && '/' !in e && |e| < |c| && EndsWith(c, e)
  {
    var e := c[d..];
    forall x | x in e[1..] ensures x != '.' {
      var i :| 0 <= i < |e[1..]| && e[1..][i] == x;
      assert x == c[d + 1 + i];
    }
    forall x | x in e ensures x != '/' {
      var i :| 0 <= i < |e| && e[i] == x;
      assert x == c[d + i];
      assert x in c;
    }
  }

  /** A file `stem + ext` in any directory has the extension `ext`, as long
      as the stem is not empty and the name is not `..`. */
  lemma ExtnameOfFile(dir: string, stem: string, ext: string)
    requires stem != [] && '/' !in stem
    requires |ext| >= 1 && ext[0] == '.' && '.' !in ext[1..] && '/' !in ext
    requires stem + ext != ".."
    ensures Extname(dir + "/" + (stem + ext)) == ext
  {
    NoSlashInJoin(stem, ext);
    BasenameOfChild(dir, stem + ext);
    LastDotOfExtension(stem, ext);
    assert (stem + ext)[|stem|..] == ext;
  }

  lemma NoSlashInJoin(a: string, b: string)
    requires '/' !in a && '/' !in b
    ensures '/' !in a + b
  {
  }

  /** The last dot of `stem + ext` is the first character of `ext`. */
  lemma LastDotOfExtension(stem: string, ext: string)
    requires |ext| >= 1 && ext[0] == '.' && '.' !in ext[1..]
    ensures LastDot(stem + ext) == |stem|
  {
    var name := stem + ext;
    var d := LastDot(name);
    assert name[|stem|] == '.';
  }

  const OctetStream := "application/octet-stream"

  /** `MIME_TYPES`. */
  const MimeTypes: map<string, string> := map[
    ".html" := "text/html; charset=utf-8",
    ".css" := "text/css; charset=utf-8",
    ".js" := "application/javascript; charset=utf-8",
    ".json" := "application/json; charset=utf-8",
    ".csv" := "text/csv; charset=utf-8",
    ".png" := "image/png",
    ".jpg" := "image/jpeg",
    ".gif" := "image/gif",
    ".svg" := "image/svg+xml",
    ".ico" := "image/x-icon",
    ".md" := "text/markdown; charset=utf-8",
    ".woff" := "font/woff",
    ".woff2" := "font/woff2"]

  function ContentType(filePath: string): (t: string)
  {
    var ext := Lower(Extname(filePath));
    if ext in MimeTypes then MimeTypes[ext] else OctetStream
  }

  lemma NoExtensionIsOctetStream(filePath: string)
    requires Extname(filePath) == ""
    ensures ContentType(filePath) == OctetStream
  {
    assert Lower("") == "";
    assert "" !in MimeTypes;
  }

  /** The type of a file named `stem + ext` depends on `ext` alone, without
      regard to case. */
  lemma ContentTypeOfFile(dir: string, stem: string, ext: string)
    requires stem != [] && '/' !in stem
    requires |ext| >= 1 && ext[0] == '.' && '.' !in ext[1..] && '/' !in ext
    requires stem + ext != ".."
    ensures ContentType(dir + "/" + (stem + ext)) == if Lower(ext) in MimeTypes then MimeTypes[Lower(ext)] else OctetStream
  {
    ExtnameOfFile(dir, stem, ext);
  }

  /** The path a static request reads: `/` stands for `/index.html`. */
  function ServedPath(pathname: string): (filePath: string)
    ensures pathname != "/" ==> filePath == pathname
    ensures pathname == "/" ==> filePath == "/index.html"
  {
    if pathname == "/" then "/index.html" else pathname
  }

  // ---------------------------------------------------------------------
  // The delete-row rewrite

  /** The first line of a file. */
  function Header(content: string): (h: string)
    ensures '\n' !in h
  {
    Split(content, '\n')[0]
  }

  /** The lines after the first. */
  function DataLines(content: string): (lines: seq<string>)
    ensures forall k :: 0 <= k < |lines| ==> '\n' !in lines[k]
  {
    var all := Split(content, '\n');
    assert forall k :: 0 <= k < |all| - 1 ==> all[1..][k] == all[k + 1];
    all[1..]
  }

  /** A data line stays unless it is blank once trimmed or the text before
      its first comma is `rowId` (a `rowId` that is not a string matches no
      line). */
  predicate KeepLine(line: string, rowId: Option<string>) {
    Trim(line) != "" && Some(FirstField(line)) != rowId
  }

  /** The data lines the rewrite keeps, in their order. */
  function KeptLines(content: string, rowId: Option<string>): seq<string> {
    Filter(DataLines(content), (line: string) => KeepLine(line, rowId))
  }

  /** The new file `/api/delete-row` writes: the first line, a newline, and
      the kept lines joined by newlines. */
  function DeleteRowContent(content: string, rowId: Option<string>): (r: string)
    ensures StartsWith(r, Header(content) + "\n")
  {
    var h := Header(content) + "\n";
    var r := h + Join(KeptLines(content, rowId), '\n');
    assert r[..|h|] == h;
    r
  }

  /** A line survives exactly when it is a data line of the old file that
      `KeepLine` accepts, and the survivors keep their order. */
  lemma DeleteRowSurvivors(content: string, rowId: Option<string>)
    ensures forall line :: line in KeptLines(content, rowId) <==>
      line in DataLines(content) && Trim(line) != "" && (rowId.Some? ==> FirstField(line) != rowId.value)
    ensures IsSubsequence(KeptLines(content, rowId), DataLines(content))
  {
    FilterIsSubsequence(DataLines(content), (line: string) => KeepLine(line, rowId));
  }

  /** The lines of the rewritten file: the old first line, then the kept
      lines (an empty last line when none is kept), each separated by a
      single newline. */
  lemma DeleteRowLines(content: string, rowId: Option<string>)
    ensures var kept := KeptLines(content, rowId);
      Split(DeleteRowContent(content, rowId), '\n') == [Header(content)] + (if kept == [] then [""] else kept)
  {
    var h := Header(content);
    var kept := KeptLines(content, rowId);
    var lines := [h] + (if kept == [] then [""] else kept);
    forall k | 0 <= k < |lines|
      ensures '\n' !in lines[k]
    {
      if k > 0 && kept != [] {
        assert lines[k] == kept[k - 1];
        assert kept[k - 1] in DataLines(content);
      }
    }
    assert lines[1..] == (if kept == [] then [""] else kept);
    assert Join(lines, '\n') == DeleteRowContent(content, rowId);
    SplitJoin(lines, '\n');
  }

  /** Deleting the same row again from the rewritten file changes nothing. */
  lemma DeleteRowIdempotent(content: string, rowId: Option<string>)
    ensures DeleteRowContent(DeleteRowContent(content, rowId), rowId) == DeleteRowContent(content, rowId)
  {
    var r := DeleteRowContent(content, rowId);
    var kept := KeptLines(content, rowId);
    DeleteRowLines(content, rowId);
    var keep := (line: string) => KeepLine(line, rowId);
    assert Header(r) == Header(content);
    if kept == [] {
      assert DataLines(r) == [""];
      assert !KeepLine("", rowId);
      assert KeptLines(r, rowId) == [];
    } else {
      assert DataLines(r) == kept;
      FilterKeepsAll(kept, keep);
    }
  }

  // ---------------------------------------------------------------------
  // Request bodies

  /** What `JSON.parse(body)` yields for a save: the `filename` and
      `content` fields, `None` where a field is missing or not a string. */
  datatype SaveBody = SaveBody(filename: Option<string>, content: Option<string>)

  /** What `JSON.parse(body)` yields for a row deletion. */
  datatype DeleteBody = DeleteBody(filename: Option<string>, rowId: Option<string>)

  /** `body += chunk` for each chunk, in arrival order. */
  function Concat(chunks: seq<string>): string
    decreases |chunks|
  {
    if |chunks| == 0 then "" else chunks[0] + Concat(chunks[1..])
  }

  lemma {:induction false} ConcatSnoc(chunks: seq<string>, last: string)
    ensures Concat(chunks + [last]) == Concat(chunks) + last
    decreases |chunks|
  {
    if |chunks| > 0 {
      assert (chunks + [last])[1..] == chunks[1..] + [last];
      ConcatSnoc(chunks[1..], last);
    }
  }

  /** The `data` handler of a POST: the body is every chunk in order. */
  method ReadBody(chunks: seq<string>) returns (body: string)
    ensures body == Concat(chunks)
  {
    body := "";
    var i := 0;
    while i < |chunks|
      invariant 0 <= i <= |chunks|
      invariant body == Concat(chunks[..i])
    {
      ConcatSnoc(chunks[..i], chunks[i]);
      assert chunks[..i + 1] == chunks[..i] + [chunks[i]];
      body := body + chunks[i];
      i := i + 1;
    }
    assert chunks[..i] == chunks;
  }

  // ---------------------------------------------------------------------
  // The data directory

  const BackupSuffix := ".backup"

  /** A basename that denotes the directory itself or its parent; reading or
      copying it fails. */
  predicate NamesDirectory(name: string) {
    name == "" || name == "." || name == ".."
  }

  /** A name a file of the data directory can have. */
  predicate PlainName(name: string) {
    '/' !in name && !NamesDirectory(name)
  }

  /** The file a request addresses: the basename of its `filename`, or
      `None` when the body is not JSON, the name is not a string, or the
      basename denotes a directory. */
  function Target(filename: Option<string>): (name: Option<string>)
    ensures name.Some? ==> PlainName(name.value)
    ensures name.Some? <==> filename.Some? && PlainName(Basename(filename.value))
    ensures name.Some? ==> name.value == Basename(filename.value)
  {
    if filename.Some? && !NamesDirectory(Basename(filename.value)) then Some(Basename(filename.value)) else None
  }

  /** `copyFileSync(path, path + '.backup')` when the file exists: the
      backup holds the file's content, every other file is as it was. */
  function Backup(files: map<string, string>, name: string): (r: map<string, string>)
    ensures name in files ==> name + BackupSuffix in r && r[name + BackupSuffix] == files[name]
    ensures forall k :: k != name + BackupSuffix ==> (k in r <==> k in files)
    ensures forall k :: k in files && k != name + BackupSuffix ==> r[k] == files[k]
    ensures name !in files ==> r == files
  {
    if name in files then files[name + BackupSuffix := files[name]] else files
  }

  /** A backup of a plain name has a plain name. */
  lemma BackupNamePlain(name: string)
    requires PlainName(name)
    ensures PlainName(name + BackupSuffix)
  {
    assert forall c :: c in name + BackupSuffix ==> c in name || c in BackupSuffix;
    assert (name + BackupSuffix)[|name + BackupSuffix| - 1] == 'p';
  }

  /** The server's answer: 200 with a message, 404, or 500 (the message of
      a thrown error is not modelled). */
  datatype Reply = Saved(name: string) | RowDeleted(name: string) | FileNotFound | Failed {
    function Status(): (code: nat)
      ensures code == 200 <==> Saved? || RowDeleted?
      ensures code == 404 <==> FileNotFound?
    {
      match this
      case Saved(_) => 200
      case RowDeleted(_) => 200
      case FileNotFound => 404
      case Failed => 500
    }

    /** The `message` or `error` text of the JSON answer: a success names
        the file it acted on. */
    function Message(): (m: string)
      ensures Saved? ==> StartsWith(m, name) && m[|name|..] == " saved"
      ensures RowDeleted? ==> StartsWith(m, "Row deleted from ") && m[|"Row deleted from "|..] == name
      ensures FileNotFound? ==> m == "File not found"
    {
      match this
      case Saved(n) => n + " saved"
      case RowDeleted(n) => "Row deleted from " + n
      case FileNotFound => "File not found"
      case Failed => ""
    }
  }

  /** What a static request gets. */
  datatype StaticReply = Served(contentType: string, body: string) | NotFoundPage(pathname: string)

  /** The files of the data directory, by name. */
  class FileStore {
    var files: map<string, string>

    /** Every stored file has a plain name. */
    predicate Valid()
      reads this
    {
      forall name :: name in files ==> PlainName(name)
    }

    constructor (initial: map<string, string>)
      requires forall name :: name in initial ==> PlainName(name)
      ensures Valid() && files == initial
    {
      files := initial;
    }

    /** `/api/save`: an existing file is copied to its backup first, then
        the content is written. A content that is not a string makes the
        write throw after the backup was taken. */
    method Save(body: Option<SaveBody>) returns (reply: Reply)
      requires Valid()
      modifies this
      ensures Valid()
      ensures body.None? ==> reply == Failed && files == old(files)
      ensures body.Some? && Target(body.value.filename).None? ==> reply == Failed && files == old(files)
      ensures body.Some? && Target(body.value.filename).Some? ==>
        var name := Target(body.value.filename).value;
        match body.value.content
        case Some(content) => reply == Saved(name) && files == Backup(old(files), name)[name := content]
        case None => reply == Failed && files == Backup(old(files), name)
    {
      if body.None? {
        return Failed;
      }
      var target := Target(body.value.filename);
      if target.None? {
        return Failed;
      }
      var name := target.value;
      BackupNamePlain(name);
      var backedUp := Backup(files, name);
      files := backedUp;
      if body.value.content.None? {
        return Failed;
      }
      files := backedUp[name := body.value.content.value];
      reply := Saved(name);
    }

    /** `/api/delete-row`: 404 when the file is missing, otherwise the old
        content goes to the backup and the rewrite to the file. The reply is
        a success whether or not a row matched. */
    method DeleteRow(body: Option<DeleteBody>) returns (reply: Reply)
      requires Valid()
      modifies this
      ensures Valid()
      ensures body.None? || Target(body.value.filename).None? ==> reply == Failed && files == old(files)
      ensures body.Some? && Target(body.value.filename).Some? ==>
        var name := Target(body.value.filename).value;
        if name !in old(files) then reply == FileNotFound && files == old(files)
        else (reply == RowDeleted(name)
              && files == Backup(old(files), name)[name := DeleteRowContent(old(files)[name], body.value.rowId)])
    {
      if body.None? {
        return Failed;
      }
      var target := Target(body.value.filename);
      if target.None? {
        return Failed;
      }
      var name := target.value;
      if name !in files {
        return FileNotFound;
      }
      var rewritten := DeleteRowContent(files[name], body.value.rowId);
      BackupNamePlain(name);
      files := Backup(files, name)[name := rewritten];
      reply := RowDeleted(name);
    }

    /** The static handler for a request that reaches the file system: a
        `.csv` path is read from the data directory when a file of that
        basename is there, any other path from the site root. */
    function ServeStatic(pathname: string, root: map<string, string>): (r: StaticReply)
      reads this
      ensures r.Served? ==> r.contentType == ContentType(ServedPath(pathname))
      ensures var filePath := ServedPath(pathname);
        EndsWith(filePath, ".csv") && Basename(filePath) in files ==> r.Served? && r.body == files[Basename(filePath)]
      ensures var filePath := ServedPath(pathname);
        !(EndsWith(filePath, ".csv") && Basename(filePath) in files) ==>
          (r.Served? <==> filePath in root) && (r.Served? ==> r.body == root[filePath])
      ensures r.NotFoundPage? ==> r.pathname == pathname
    {
      var filePath := ServedPath(pathname);
      if EndsWith(filePath, ".csv") && Basename(filePath) in files then
        Served(ContentType(filePath), files[Basename(filePath)])
      else if filePath in root then
        Served(ContentType(filePath), root[filePath])
      else
        NotFoundPage(pathname)
    }
  }

  /** After a successful delete, the file holds the rewrite of what the
      backup holds, and deleting the same row again leaves the file as it
      is. */
  lemma BackupHoldsPreviousContent(files: map<string, string>, name: string, rowId: Option<string>)
    requires name in files
    ensures var after := Backup(files, name)[name := DeleteRowContent(files[name], rowId)];
      after[name + BackupSuffix] == files[name]
      && after[name] == DeleteRowContent(after[name + BackupSuffix], rowId)
      && DeleteRowContent(after[name], rowId) == after[name]
  {
    assert name != name + BackupSuffix;
    DeleteRowIdempotent(files[name], rowId);
  }
}
