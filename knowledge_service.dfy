/**
 * The knowledge-file service: listing the `*.txt` files of the knowledge directory,
 * reading one file with the path-traversal check, and deriving a file's category
 * label from its name.
 */
module KnowledgeService {
  import opened Wrappers
  import opened PyText

  /** One entry of the knowledge directory. `content` is None when the file is not
      valid UTF-8. */
  datatype Entry =
    | RegularFile(content: Option<string>, size: nat, updatedAt: real)
    | Folder

  /** The knowledge directory, by entry name. */
  type Directory = map<string, Entry>

  /** One element of `get_file_list`. */
  datatype FileInfo = FileInfo(filename: string, size: nat, updatedAt: real, fileType: string)

  /** The value `get_file_content` returns. */
  datatype FileContent = FileContent(filename: string, content: string, size: nat, updatedAt: real)

  /** The exceptions `get_file_content` raises. */
  datatype KnowledgeError =
    | InvalidFilename
    | NotFound(name: string)
    | NotAFile(name: string)
    | EncodingError(name: string)
  {
    /** ValueError, as opposed to FileNotFoundError. */
    predicate IsValueError()
    {
      !NotFound?
    }

    function Message(): string
    {
      match this
      case InvalidFilename => "Invalid filename"
      case NotFound(n) => "File not found: " + n
      case NotAFile(n) => "Not a file: " + n
      case EncodingError(n) => "File encoding error: " + n
    }
  }

  /** The fourteen labels a file category can take. */
  const FileTypes: set<string> :=
    {"price", "contractor", "repair", "legal_safety", "risk", "document", "judgement",
     "urgency", "material", "construction", "other", "case_study", "lessons", "unknown"}

  /** `_get_file_type`: the first matching prefix (or exact name) decides the label. */
  function FileType(filename: string): (category: string)
    ensures category in FileTypes
  {
    if StartsWith(filename, "price_") then "price"
    else if StartsWith(filename, "contractor_") then "contractor"
    else if StartsWith(filename, "repair_") then "repair"
    else if StartsWith(filename, "legal_") || StartsWith(filename, "safety_") then "legal_safety"
    else if StartsWith(filename, "risk_") then "risk"
    else if StartsWith(filename, "estimate_") || StartsWith(filename, "order_") then "document"
    else if StartsWith(filename, "judgement_") || StartsWith(filename, "decision_") then "judgement"
    else if StartsWith(filename, "urgency_") || StartsWith(filename, "water_supply_") then "urgency"
    else if StartsWith(filename, "material_") || StartsWith(filename, "part_") then "material"
    else if StartsWith(filename, "construction_") || StartsWith(filename, "difficulty_") then "construction"
    else if StartsWith(filename, "warranty_") || StartsWith(filename, "seasonal_")
         || StartsWith(filename, "building_") || StartsWith(filename, "communication_") then "other"
    else if filename == "past_case_study.txt" then "case_study"
    else if filename == "common_mistakes_lessons.txt" then "lessons"
    else "unknown"
  }

  /** The twenty name prefixes the category chain tests. */
  const Prefixes: set<string> := {
    "price_", "contractor_", "repair_", "legal_", "safety_", "risk_", "estimate_", "order_",
    "judgement_", "decision_", "urgency_", "water_supply_", "material_", "part_",
    "construction_", "difficulty_", "warranty_", "seasonal_", "building_", "communication_"
  }

  /** A name is "unknown" exactly when it has none of the prefixes and is neither of
      the two exact names. */
  lemma UnknownMeansNoRule(filename: string)
    requires FileType(filename) == "unknown"
    ensures forall p :: p in Prefixes ==> !StartsWith(filename, p)
    ensures filename != "past_case_study.txt" && filename != "common_mistakes_lessons.txt"
  {
  }

  lemma NoRuleMeansUnknown(filename: string)
    requires forall p :: p in Prefixes ==> !StartsWith(filename, p)
    requires filename != "past_case_study.txt" && filename != "common_mistakes_lessons.txt"
    ensures FileType(filename) == "unknown"
  {
    NoPrefixByName(filename);
  }

  /** A name with none of the prefixes is classified by the exact-name tests alone. */
  lemma NoPrefixByName(filename: string)
    requires forall p :: p in Prefixes ==> !StartsWith(filename, p)
    ensures FileType(filename) ==
              if filename == "past_case_study.txt" then "case_study"
              else if filename == "common_mistakes_lessons.txt" then "lessons"
              else "unknown"
  {
    assert !StartsWith(filename, "price_");
    assert !StartsWith(filename, "contractor_");
    assert !StartsWith(filename, "repair_");
    assert !StartsWith(filename, "legal_");
    assert !StartsWith(filename, "safety_");
    assert !StartsWith(filename, "risk_");
    assert !StartsWith(filename, "estimate_");
    assert !StartsWith(filename, "order_");
    assert !StartsWith(filename, "judgement_");
    assert !StartsWith(filename, "decision_");
    assert !StartsWith(filename, "urgency_");
    assert !StartsWith(filename, "water_supply_");
    assert !StartsWith(filename, "material_");
    assert !StartsWith(filename, "part_");
    assert !StartsWith(filename, "construction_");
    assert !StartsWith(filename, "difficulty_");
    assert !StartsWith(filename, "warranty_");
    assert !StartsWith(filename, "seasonal_");
    assert !StartsWith(filename, "building_");
    assert !StartsWith(filename, "communication_");
  }

  /** Only the two exact names yield "case_study" and "lessons". */
  lemma ExactNameLabels(filename: string)
    ensures FileType(filename) == "case_study" ==> filename == "past_case_study.txt"
    ensures FileType(filename) == "lessons" ==> filename == "common_mistakes_lessons.txt"
  {
  }

  /** A name that begins with "past_" has none of the rule prefixes. */
  lemma PastHeadHasNoPrefix(name: string)
    requires |name| >= 5 && name[0] == 'p' && name[1] == 'a' && name[2] == 's' && name[3] == 't' && name[4] == '_'
    ensures forall p :: p in Prefixes ==> !StartsWith(name, p)
  {
    NotStartsWithAt(name, "price_", 1);
    NotStartsWithAt(name, "contractor_", 0);
    NotStartsWithAt(name, "repair_", 0);
    NotStartsWithAt(name, "legal_", 0);
    NotStartsWithAt(name, "safety_", 0);
    NotStartsWithAt(name, "risk_", 0);
    NotStartsWithAt(name, "estimate_", 0);
    NotStartsWithAt(name, "order_", 0);
    NotStartsWithAt(name, "judgement_", 0);
    NotStartsWithAt(name, "decision_", 0);
    NotStartsWithAt(name, "urgency_", 0);
    NotStartsWithAt(name, "water_supply_", 0);
    NotStartsWithAt(name, "material_", 0);
    NotStartsWithAt(name, "part_", 2);
    NotStartsWithAt(name, "construction_", 0);
    NotStartsWithAt(name, "difficulty_", 0);
    NotStartsWithAt(name, "warranty_", 0);
    NotStartsWithAt(name, "seasonal_", 0);
    NotStartsWithAt(name, "building_", 0);
    NotStartsWithAt(name, "communication_", 0);
  }

  /** A name that begins with "commo" has none of the rule prefixes. */
  lemma CommonHeadHasNoPrefix(name: string)
    requires |name| >= 5 && name[0] == 'c' && name[1] == 'o' && name[2] == 'm' && name[3] == 'm' && name[4] == 'o'
    ensures forall p :: p in Prefixes ==> !StartsWith(name, p)
  {
    NotStartsWithAt(name, "price_", 0);
    NotStartsWithAt(name, "contractor_", 2);
    NotStartsWithAt(name, "repair_", 0);
    NotStartsWithAt(name, "legal_", 0);
    NotStartsWithAt(name, "safety_", 0);
    NotStartsWithAt(name, "risk_", 0);
    NotStartsWithAt(name, "estimate_", 0);
    NotStartsWithAt(name, "order_", 0);
    NotStartsWithAt(name, "judgement_", 0);
    NotStartsWithAt(name, "decision_", 0);
    NotStartsWithAt(name, "urgency_", 0);
    NotStartsWithAt(name, "water_supply_", 0);
    NotStartsWithAt(name, "material_", 0);
    NotStartsWithAt(name, "part_", 0);
    NotStartsWithAt(name, "construction_", 2);
    NotStartsWithAt(name, "difficulty_", 0);
    NotStartsWithAt(name, "warranty_", 0);
    NotStartsWithAt(name, "seasonal_", 0);
    NotStartsWithAt(name, "building_", 0);
    NotStartsWithAt(name, "communication_", 4);
  }

  lemma ExactNamesClassified(filename: string)
    requires filename == "past_case_study.txt" || filename == "common_mistakes_lessons.txt"
    ensures FileType(filename) == if filename == "past_case_study.txt" then "case_study" else "lessons"
  {
    if filename == "past_case_study.txt" {
      PastHeadHasNoPrefix(filename);
    } else {
      CommonHeadHasNoPrefix(filename);
    }
    NoPrefixByName(filename);
  }

  /** Both "legal_" and "safety_" names fall in "legal_safety". */
  lemma LegalAndSafetyShareCategory(filename: string)
    requires StartsWith(filename, "legal_") || StartsWith(filename, "safety_")
    ensures FileType(filename) == "legal_safety"
  {
    var p := if StartsWith(filename, "legal_") then "legal_" else "safety_";
    StartsWithChar(filename, p, 0);
    NotStartsWithAt(filename, "price_", 0);
    NotStartsWithAt(filename, "contractor_", 0);
    NotStartsWithAt(filename, "repair_", 0);
  }

  /** The path-traversal check of `get_file_content`. */
  predicate IsTraversal(filename: string)
  {
    Contains(filename, "..") || Contains(filename, "/") || Contains(filename, "\\")
  }

  /** `get_file_content`: the name check comes before any look-up; the names "" and
      "." denote the directory itself. */
  function GetFileContent(dir: Directory, filename: string): (r: Result<FileContent, KnowledgeError>)
    ensures IsTraversal(filename) <==> r == Err(InvalidFilename)
    ensures !IsTraversal(filename) && (filename == "" || filename == "." || (filename in dir && dir[filename].Folder?))
            ==> r == Err(NotAFile(filename))
    ensures !IsTraversal(filename) && filename != "" && filename != "." && filename !in dir
            ==> r == Err(NotFound(filename))
    ensures r.Err? && r.error.NotFound? ==> filename !in dir && r.error.name == filename
    ensures r.Ok? <==> !IsTraversal(filename) && filename != "" && filename != "."
                       && filename in dir && dir[filename].RegularFile? && dir[filename].content.Some?
    ensures !IsTraversal(filename) && filename != "" && filename != "." && filename in dir
            && dir[filename].RegularFile? && dir[filename].content.None?
            ==> r == Err(EncodingError(filename))
    ensures r.Ok? ==> var e := dir[filename];
                      r.value == FileContent(filename, e.content.value, e.size, e.updatedAt)
  {
    if IsTraversal(filename) then Err(InvalidFilename)
    else if filename == "" || filename == "." then Err(NotAFile(filename))
    else if filename !in dir then Err(NotFound(filename))
    else match dir[filename]
      case Folder => Err(NotAFile(filename))
      case RegularFile(content, size, updatedAt) =>
        if content.None? then Err(EncodingError(filename))
        else Ok(FileContent(filename, content.value, size, updatedAt))
  }

  /** Strictly increasing in Python's string order. */
  predicate SortedNames(names: seq<string>)
  {
    forall i, j :: 0 <= i < j < |names| ==> Less(names[i], names[j])
  }

  /** Places `x` among the strictly sorted `names` it does not belong to. */
  function Insert(names: seq<string>, x: string): (r: seq<string>)
    requires SortedNames(names) && x !in names
    ensures SortedNames(r)
    ensures |r| == |names| + 1
    ensures forall y :: y in r <==> y == x || y in names
  {
    if names == [] then [x]
    else if Less(x, names[0]) then
      assert forall j :: 0 <= j < |names| ==> Less(x, names[j]) by {
        forall j | 0 < j < |names| ensures Less(x, names[j]) {
          LessTransitive(x, names[0], names[j]);
        }
      }
      [x] + names
    else
      LessTotal(x, names[0]);
      var rest := Insert(names[1..], x);
      assert forall y :: y in names[1..] ==> Less(names[0], y);
      [names[0]] + rest
  }

  /** `sorted(...)` of a set of names. */
  method SortNames(s: set<string>) returns (names: seq<string>)
    ensures SortedNames(names)
    ensures forall y :: y in names <==> y in s
  {
    names := [];
    var remaining := s;
    while remaining != {}
      invariant SortedNames(names)
      invariant forall y :: y in names <==> y in s && y !in remaining
      invariant remaining <= s
      decreases remaining
    {
      var x :| x in remaining;
      names := Insert(names, x);
      remaining := remaining - {x};
    }
  }

  /** The names of a file listing, in order. */
  function Filenames(files: seq<FileInfo>): (names: seq<string>)
    ensures |names| == |files| && forall i :: 0 <= i < |files| ==> names[i] == files[i].filename
  {
    if files == [] then [] else [files[0].filename] + Filenames(files[1..])
  }

  /** A directory entry `get_file_list` reports: it matches `*.txt` and is a regular file. */
  predicate Listed(dir: Directory, name: string)
  {
    name in dir && EndsWith(name, ".txt") && dir[name].RegularFile?
  }

  /** A listing element carries the entry's size, time and category. */
  predicate Describes(dir: Directory, info: FileInfo)
  {
    info.filename in dir && dir[info.filename].RegularFile?
    && info.size == dir[info.filename].size && info.updatedAt == dir[info.filename].updatedAt
    && info.fileType == FileType(info.filename)
  }

  /** The listing element of a regular file. */
  function Describe(dir: Directory, name: string): (info: FileInfo)
    requires name in dir && dir[name].RegularFile?
    ensures info.filename == name && Describes(dir, info)
  {
    FileInfo(name, dir[name].size, dir[name].updatedAt, FileType(name))
  }

  /** Appending a name that comes later in a sorted sequence keeps a sorted selection
      of its earlier names sorted. */
  lemma AppendKeepsSorted(selected: seq<string>, names: seq<string>, k: nat)
    requires SortedNames(names) && k < |names|
    requires SortedNames(selected) && forall n :: n in selected ==> n in names[..k]
    ensures SortedNames(selected + [names[k]])
  {
    forall i | 0 <= i < |selected| ensures Less(selected[i], names[k]) {
      assert selected[i] in names[..k];
      var m :| 0 <= m < k && names[m] == selected[i];
    }
  }

  /** `get_file_list`: the regular `*.txt` files of the directory, each once, in sorted
      name order, each with its category. */
  method GetFileList(dir: Directory) returns (files: seq<FileInfo>)
    ensures SortedNames(Filenames(files))
    ensures forall n :: n in Filenames(files) <==> Listed(dir, n)
    ensures forall i :: 0 <= i < |files| ==> Describes(dir, files[i])
  {
    var matching := set n | n in dir && EndsWith(n, ".txt");
    var names := SortNames(matching);
    files := [];
    for k := 0 to |names|
      invariant SortedNames(Filenames(files))
      invariant forall n :: n in Filenames(files) <==> n in names[..k] && Listed(dir, n)
      invariant forall i :: 0 <= i < |files| ==> Describes(dir, files[i])
    {
      var name := names[k];
      assert name in names && name in matching;
      if dir[name].RegularFile? {
        var info := Describe(dir, name);
        ListingStep(dir, names, k, files, info);
        files := files + [info];
      } else {
        ListingSkip(dir, names, k, files);
      }
    }
    assert names[..|names|] == names;
    forall n | Listed(dir, n) ensures n in names {
      assert n in matching;
    }
  }

  /** A listed name appended to the listing of the earlier names gives the listing of
      the names up to it. */
  lemma ListingStep(dir: Directory, names: seq<string>, k: nat, files: seq<FileInfo>, info: FileInfo)
    requires SortedNames(names) && k < |names|
    requires SortedNames(Filenames(files))
    requires forall n :: n in Filenames(files) <==> n in names[..k] && Listed(dir, n)
    requires info.filename == names[k] && Listed(dir, names[k])
    ensures SortedNames(Filenames(files + [info]))
    ensures forall n :: n in Filenames(files + [info]) <==> n in names[..k + 1] && Listed(dir, n)
  {
    assert names[..k + 1] == names[..k] + [names[k]];
    AppendKeepsSorted(Filenames(files), names, k);
    assert Filenames(files + [info]) == Filenames(files) + [names[k]];
  }

  /** A name that is not listed leaves the listing as it is. */
  lemma ListingSkip(dir: Directory, names: seq<string>, k: nat, files: seq<FileInfo>)
    requires k < |names| && !Listed(dir, names[k])
    requires forall n :: n in Filenames(files) <==> n in names[..k] && Listed(dir, n)
    ensures forall n :: n in Filenames(files) <==> n in names[..k + 1] && Listed(dir, n)
  {
    assert names[..k + 1] == names[..k] + [names[k]];
  }
}
