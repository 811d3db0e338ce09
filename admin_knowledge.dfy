/**
 * The administrator routes over knowledge files: reading one file, creating a
 * file and deleting one. Every route first requires an administrator session;
 * create and delete validate and normalise the name before touching the directory.
 */
module AdminKnowledge {
  import opened Wrappers
  import opened PyText
  import opened Http
  import opened Auth
  import opened KnowledgeService

  /** The `{"status", "message", "filename"}` body of a successful create or delete. */
  datatype Outcome = Outcome(status: string, message: string, filename: string)

  /** Strip the name, then give it the ".txt" suffix unless it already has it. */
  function NormalizeName(raw: string): (name: string)
    ensures EndsWith(name, ".txt")
    ensures name == [] || !IsSpace(name[0])
    ensures EndsWith(Strip(raw), ".txt") ==> name == Strip(raw)
    ensures !EndsWith(Strip(raw), ".txt") ==> name == Strip(raw) + ".txt"
  {
    var s := Strip(raw);
    if EndsWith(s, ".txt") then s else s + ".txt"
  }

  /** Normalising a normalised name changes nothing. */
  lemma NormalizeIdempotent(raw: string)
    ensures NormalizeName(NormalizeName(raw)) == NormalizeName(raw)
  {
    var n := NormalizeName(raw);
    assert n[|n| - 1] == ".txt"[3];
    StripUnchanged(n);
  }

  /** The validation shared by create and delete: a blank name, then a name that
      escapes the directory once normalised, are refused with 400. */
  function CheckedName(raw: string): (r: Result<string, HttpError>)
    ensures r == Err(HttpError(400, "Filename is required")) <==> AllSpace(raw)
    ensures r == Err(HttpError(400, "Invalid filename")) <==> !AllSpace(raw) && IsTraversal(NormalizeName(raw))
    ensures r.Ok? <==> !AllSpace(raw) && !IsTraversal(NormalizeName(raw))
    ensures r.Ok? ==> r.value == NormalizeName(raw)
  {
    if Strip(raw) == [] then Err(HttpError(400, "Filename is required"))
    else
      var name := NormalizeName(raw);
      if IsTraversal(name) then Err(HttpError(400, "Invalid filename"))
      else Ok(name)
  }

  /** `create_knowledge_file`. `exists()` holds for any entry, folder or file; the
      file system's answer to the write is `writeError` (an OS message) or, on success,
      the size and time it records. The new entry holds what reading the file returns:
      the written text with its line endings translated. */
  function CreateFile(sessions: set<string>, cookie: Option<string>, dir: Directory,
                      raw: string, content: string,
                      writeError: Option<string>, size: nat, now: real)
    : (r: Result<(Directory, Outcome), HttpError>)
    ensures !IsAdmin(sessions, cookie) ==> r == Err(HttpError(401, "Admin authentication required"))
    ensures IsAdmin(sessions, cookie) && CheckedName(raw).Err? ==> r == Err(CheckedName(raw).error)
    ensures r.Ok? <==> IsAdmin(sessions, cookie) && CheckedName(raw).Ok?
                       && NormalizeName(raw) !in dir && writeError.None?
    ensures r.Ok? ==> var name := NormalizeName(raw);
                      r.value.0 == dir[name := RegularFile(Some(UniversalNewlines(content)), size, now)]
                      && r.value.1 == Outcome("success", "File created: " + name, name)
    ensures IsAdmin(sessions, cookie) && CheckedName(raw).Ok? && NormalizeName(raw) in dir
            ==> r == Err(HttpError(400, "File already exists: " + NormalizeName(raw)))
  {
    match RequireAdmin(sessions, cookie)
    case Some(e) => Err(e)
    case None =>
      match CheckedName(raw)
      case Err(e) => Err(e)
      case Ok(name) =>
        if name in dir then Err(HttpError(400, "File already exists: " + name))
        else if writeError.Some? then Err(HttpError(500, "Error creating file: " + writeError.value))
        else Ok((dir[name := RegularFile(Some(UniversalNewlines(content)), size, now)],
                 Outcome("success", "File created: " + name, name)))
  }

  /** `delete_knowledge_file`. Unlinking a folder fails with the OS message `unlinkError`. */
  function DeleteFile(sessions: set<string>, cookie: Option<string>, dir: Directory,
                      raw: string, unlinkError: string)
    : (r: Result<(Directory, Outcome), HttpError>)
    ensures !IsAdmin(sessions, cookie) ==> r == Err(HttpError(401, "Admin authentication required"))
    ensures IsAdmin(sessions, cookie) && CheckedName(raw).Err? ==> r == Err(CheckedName(raw).error)
    ensures IsAdmin(sessions, cookie) && CheckedName(raw).Ok? && NormalizeName(raw) !in dir
            ==> r == Err(HttpError(404, "File not found: " + NormalizeName(raw)))
    ensures r.Ok? <==> IsAdmin(sessions, cookie) && CheckedName(raw).Ok?
                       && NormalizeName(raw) in dir && dir[NormalizeName(raw)].RegularFile?
    ensures r.Ok? ==> var name := NormalizeName(raw);
                      r.value.0 == dir - {name}
                      && r.value.1 == Outcome("success", "File deleted: " + name, name)
  {
    match RequireAdmin(sessions, cookie)
    case Some(e) => Err(e)
    case None =>
      match CheckedName(raw)
      case Err(e) => Err(e)
      case Ok(name) =>
        if name !in dir then Err(HttpError(404, "File not found: " + name))
        else if dir[name].Folder? then Err(HttpError(500, "Error deleting file: " + unlinkError))
        else Ok((dir - {name}, Outcome("success", "File deleted: " + name, name)))
  }

  /** The name `get_knowledge_file_content` looks up: ".txt" is appended, nothing stripped. */
  function ContentName(filename: string): (name: string)
    ensures EndsWith(name, ".txt") && name != "" && name != "."
    ensures EndsWith(filename, ".txt") ==> name == filename
    ensures !EndsWith(filename, ".txt") ==> name == filename + ".txt"
  {
    if EndsWith(filename, ".txt") then filename else filename + ".txt"
  }

  /** `get_knowledge_file_content`: FileNotFoundError becomes 404 and ValueError 400,
      each with the service's message. */
  function GetContent(sessions: set<string>, cookie: Option<string>, dir: Directory,
                      filename: string): (r: Result<FileContent, HttpError>)
    ensures !IsAdmin(sessions, cookie) ==> r == Err(HttpError(401, "Admin authentication required"))
    ensures IsAdmin(sessions, cookie) ==>
              var name := ContentName(filename);
              && (r.Err? && r.error.status == 404 <==> !IsTraversal(name) && name !in dir)
              && (r.Err? && r.error.status == 400 <==>
                    IsTraversal(name)
                    || (name in dir && (dir[name].Folder? || dir[name].content.None?)))
              && (r.Err? && r.error.status == 404 ==> r.error == HttpError(404, "File not found: " + name))
              && (r.Ok? <==> !IsTraversal(name) && name in dir && dir[name].RegularFile? && dir[name].content.Some?)
              && (r.Ok? ==> r.value == FileContent(name, dir[name].content.value, dir[name].size, dir[name].updatedAt))
              && (r == Err(HttpError(400, "Invalid filename")) <==> IsTraversal(name))
  {
    match RequireAdmin(sessions, cookie)
    case Some(e) => Err(e)
    case None =>
      match GetFileContent(dir, ContentName(filename))
      case Ok(c) => Ok(c)
      case Err(e) =>
        assert e.Message() == "Invalid filename" ==> e == InvalidFilename by {
          if e.NotAFile? || e.EncodingError? || e.NotFound? {
            assert e.Message()[0] != "Invalid filename"[0];
          }
        }
        Err(HttpError(if e.IsValueError() then 400 else 404, e.Message()))
  }

  /** A created file reads back with the content it was created with, its line
      endings translated; content without a carriage return reads back unchanged. */
  lemma CreateThenRead(sessions: set<string>, cookie: Option<string>, dir: Directory,
                       raw: string, content: string, size: nat, now: real)
    requires CreateFile(sessions, cookie, dir, raw, content, None, size, now).Ok?
    ensures var (dir', outcome) := CreateFile(sessions, cookie, dir, raw, content, None, size, now).value;
            GetContent(sessions, cookie, dir', outcome.filename)
              == Ok(FileContent(outcome.filename, UniversalNewlines(content), size, now))
    ensures '\r' !in content ==>
            var (dir', outcome) := CreateFile(sessions, cookie, dir, raw, content, None, size, now).value;
            GetContent(sessions, cookie, dir', outcome.filename)
              == Ok(FileContent(outcome.filename, content, size, now))
  {
    if '\r' !in content {
      NoCarriageReturnUnchanged(content);
    }
  }

  /** A deleted file is then reported missing with 404. */
  lemma DeleteThenNotFound(sessions: set<string>, cookie: Option<string>, dir: Directory,
                           raw: string, unlinkError: string)
    requires DeleteFile(sessions, cookie, dir, raw, unlinkError).Ok?
    ensures var (dir', outcome) := DeleteFile(sessions, cookie, dir, raw, unlinkError).value;
            GetContent(sessions, cookie, dir', outcome.filename)
              == Err(HttpError(404, "File not found: " + outcome.filename))
  {
  }
}
