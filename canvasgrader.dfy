/**
 * The `CanvasGrader` client: URL construction, the form data it posts to the
 * Canvas LMS REST API, and the checks it makes on the credential file before
 * using the API key stored in it. The HTTP session itself is not modelled:
 * each operation returns the `Request` (URL and form fields) it would post.
 */
module Canvasgrader {
  import opened Wrappers
  import opened Builtins

  /** The characters `build_url` strips from both ends of a path. */
  const Slash: set<char> := {'/'}

  /** `stat.S_IFREG`, the file-type bits (octal 100000) of every regular file's `st_mode`. */
  const RegularFileType: nat := 32768

  // ---------------------------------------------------------------------
  // Credential file
  // ---------------------------------------------------------------------

  /** What `~/.canvasgrader` provides when it is a regular file: its `st_mode` and its text. */
  datatype KeyFile = KeyFile(stMode: nat, contents: string)

  /** The exceptions `__init__` raises while looking for an API key. */
  datatype InitError =
    | NoKeyFile        // RuntimeError: no key was passed and there is no key file
    | InsecureKeyFile  // RuntimeError: the key file's mode fails the permission test
    | ModeNotDecimal   // ValueError: the mode has fewer than three octal digits, so the decimal parse fails

  /** The three lowest octal digits of `stMode` (owner, group, other), read as a decimal number, exceed 600. */
  predicate IsTooPermissive(stMode: nat) {
    (stMode / 64 % 8) * 100 + (stMode / 8 % 8) * 10 + stMode % 8 > 600
  }

  /** The permission bits grant nothing beyond owner read and owner write (octal 600). */
  predicate IsOwnerReadWriteOnly(stMode: nat) {
    stMode / 64 % 2 == 0 && stMode / 8 % 8 == 0 && stMode % 8 == 0
  }

  /**
   * The API key `__init__` ends up with: an explicit `apiKey` verbatim;
   * otherwise the key file's text with surrounding whitespace removed,
   * provided the file exists and the last three characters of its mode in
   * octal, read as a decimal number, do not exceed 600.
   */
  function ResolveApiKey(apiKey: Option<string>, keyFile: Option<KeyFile>): Result<string, InitError> {
    match apiKey
    case Some(key) => Success(key)
    case None =>
      match keyFile
      case None => Failure(NoKeyFile)
      case Some(f) =>
        match ParseInt(LastThree(Oct(f.stMode)))
        case None => Failure(ModeNotDecimal)
        case Some(v) =>
          if v > 600 then Failure(InsecureKeyFile) else Success(Strip(f.contents, Whitespace))
  }

  /** The outcome of `ResolveApiKey` in each case, with the permission test stated on the mode's digits. */
  lemma ResolveApiKeyCases(apiKey: Option<string>, keyFile: Option<KeyFile>)
    ensures apiKey.Some? ==> ResolveApiKey(apiKey, keyFile) == Success(apiKey.value)
    ensures apiKey.None? && keyFile.None? ==> ResolveApiKey(apiKey, keyFile) == Failure(NoKeyFile)
    ensures apiKey.None? && keyFile.Some? ==>
      var m := keyFile.value.stMode;
      && (ResolveApiKey(apiKey, keyFile) == Failure(ModeNotDecimal) <==> m < 64)
      && (ResolveApiKey(apiKey, keyFile) == Failure(InsecureKeyFile) <==> m >= 64 && IsTooPermissive(m))
      && (ResolveApiKey(apiKey, keyFile).Success? <==> m >= 64 && !IsTooPermissive(m))
  {
    if keyFile.Some? {
      OctLastThreeAsDecimal(keyFile.value.stMode);
    }
  }

  /** A key read from the file has no leading or trailing whitespace and is the file's text with only whitespace cut from its ends. */
  lemma FileKeyIsTrimmed(keyFile: KeyFile)
    requires ResolveApiKey(None, Some(keyFile)).Success?
    ensures IsStripped(ResolveApiKey(None, Some(keyFile)).value, Whitespace)
    ensures IsTrimOf(ResolveApiKey(None, Some(keyFile)).value, keyFile.contents, Whitespace)
  {
    var key := ResolveApiKey(None, Some(keyFile)).value;
    assert key == Strip(keyFile.contents, Whitespace);
    StripIsTrim(keyFile.contents, Whitespace);
  }

  /** The `ValueError` branch is unreachable for a regular file, whose `st_mode` carries `S_IFREG`. */
  lemma RegularFileModeIsDecimal(keyFile: KeyFile)
    requires keyFile.stMode >= RegularFileType
    ensures ResolveApiKey(None, Some(keyFile)) != Failure(ModeNotDecimal)
  {
    OctLastThreeAsDecimal(keyFile.stMode);
  }

  /** The modes the decimal comparison accepts: owner digit below 6, or exactly 600. */
  lemma AcceptedModes(stMode: nat)
    ensures !IsTooPermissive(stMode) <==>
      (stMode / 64 % 8 < 6 || (stMode / 64 % 8 == 6 && stMode / 8 % 8 == 0 && stMode % 8 == 0))
  {
  }

  /**
   * Every key file whose mode has three octal digits and is private to its
   * owner yields a key, but some modes that give group
   * or others access are too: any key file (regular or not, so long as its mode
   * has three octal digits) whose permission bits are octal 577 (r-x rwx rwx)
   * or octal 066 (--- rw- rw-) passes the check.
   */
  lemma PermissionCheckVersusOwnerOnly(stMode: nat, contents: string)
    ensures IsOwnerReadWriteOnly(stMode) ==> !IsTooPermissive(stMode)
    ensures stMode >= 64 && IsOwnerReadWriteOnly(stMode) ==>
      ResolveApiKey(None, Some(KeyFile(stMode, contents))).Success?
    ensures stMode >= 64 && stMode / 64 % 8 == 5 && stMode / 8 % 8 == 7 && stMode % 8 == 7 ==>
      !IsOwnerReadWriteOnly(stMode) && ResolveApiKey(None, Some(KeyFile(stMode, contents))).Success?
    ensures stMode >= 64 && stMode / 64 % 8 == 0 && stMode / 8 % 8 == 6 && stMode % 8 == 6 ==>
      !IsOwnerReadWriteOnly(stMode) && ResolveApiKey(None, Some(KeyFile(stMode, contents))).Success?
  {
    if stMode >= 64 && IsOwnerReadWriteOnly(stMode) {
      ModeAccepted(stMode, contents);
    }
    if stMode >= 64 && stMode / 64 % 8 == 5 && stMode / 8 % 8 == 7 && stMode % 8 == 7 {
      ParityOfOctalDigit(stMode / 64);
      ModeAccepted(stMode, contents);
    } else if stMode >= 64 && stMode / 64 % 8 == 0 && stMode / 8 % 8 == 6 && stMode % 8 == 6 {
      ModeAccepted(stMode, contents);
    }
  }

  /** A key file whose mode has three octal digits and passes the comparison yields a key. */
  lemma ModeAccepted(stMode: nat, contents: string)
    requires stMode >= 64 && !IsTooPermissive(stMode)
    ensures ResolveApiKey(None, Some(KeyFile(stMode, contents))).Success?
  {
    ResolveApiKeyCases(None, Some(KeyFile(stMode, contents)));
  }

  lemma ParityOfOctalDigit(n: nat)
    ensures n % 2 == n % 8 % 2
  {
    assert n == 8 * (n / 8) + n % 8;
  }

  /** For a regular file, the check depends on the permission bits alone. */
  lemma RegularFileCheck(perms: nat, contents: string)
    requires perms < 4096
    ensures var r := ResolveApiKey(None, Some(KeyFile(RegularFileType + perms, contents)));
      && (r.Success? <==> !IsTooPermissive(perms))
      && (r.Failure? <==> r == Failure(InsecureKeyFile))
  {
    ResolveApiKeyCases(None, Some(KeyFile(RegularFileType + perms, contents)));
    FileTypeBitsIgnored(perms);
  }

  lemma FileTypeBitsIgnored(perms: nat)
    ensures IsTooPermissive(RegularFileType + perms) == IsTooPermissive(perms)
  {
    var m := RegularFileType + perms;
    assert m / 64 == 512 + perms / 64;
    assert m / 8 == 4096 + perms / 8;
    assert (512 + perms / 64) % 8 == perms / 64 % 8;
    assert (4096 + perms / 8) % 8 == perms / 8 % 8;
    assert m % 8 == perms % 8;
  }

  /** The check on modes octal 600, 400 and 577 (accepted) and 644 and 700 (rejected). */
  lemma PermissionExamples()
    ensures !IsTooPermissive(384) && !IsTooPermissive(256) && !IsTooPermissive(383)
    ensures IsTooPermissive(420) && IsTooPermissive(448)
  {
  }

  // ---------------------------------------------------------------------
  // Requests
  // ---------------------------------------------------------------------

  /** A POST request: its URL and its form fields. */
  datatype Request<V> = Request(url: string, data: map<string, V>)

  /** A form value of the assignment-creation request. */
  datatype FormValue<P> = Text(text: string) | Points(points: P) | Flag(flag: bool)

  /** The path `create_assignment` posts to. */
  const AssignmentsPath: string := "/assignments"

  /** The path `grade_assignment` posts to, with the assignment id formatted as text. */
  function UpdateGradesPath(assignmentId: string): string {
    "/assignments/" + assignmentId + "/submissions/update_grades"
  }

  /** The form key under which a grade for student `sid` is posted. */
  function GradeKey(idKey: string, sid: string): string {
    "grade_data[" + idKey + ":" + sid + "][posted_grade]"
  }

  /** The student id a grade key was made from, if `key` has the form `GradeKey(idKey, sid)`. */
  function ParseGradeKey(idKey: string, key: string): Option<string> {
    var prefix := "grade_data[" + idKey + ":";
    var suffix := "][posted_grade]";
    if |key| >= |prefix| + |suffix| && key[..|prefix|] == prefix && key[|key| - |suffix|..] == suffix then
      Some(key[|prefix|..|key| - |suffix|])
    else
      None
  }

  /** `ParseGradeKey` inverts `GradeKey`: it accepts exactly the keys `GradeKey` makes and recovers the student id. */
  lemma ParseGradeKeyInverse(idKey: string, key: string, sid: string)
    ensures ParseGradeKey(idKey, key) == Some(sid) <==> key == GradeKey(idKey, sid)
  {
    var prefix := "grade_data[" + idKey + ":";
    var suffix := "][posted_grade]";
    if key == GradeKey(idKey, sid) {
      assert key == prefix + sid + suffix;
      assert key[..|prefix|] == prefix;
      assert key[|key| - |suffix|..] == suffix;
      assert key[|prefix|..|key| - |suffix|] == sid;
    }
    if ParseGradeKey(idKey, key) == Some(sid) {
      assert key == key[..|prefix|] + key[|prefix|..|key| - |suffix|] + key[|key| - |suffix|..];
    }
  }

  /** Distinct student ids give distinct grade keys. */
  lemma GradeKeyInjective(idKey: string, sid1: string, sid2: string)
    ensures GradeKey(idKey, sid1) == GradeKey(idKey, sid2) <==> sid1 == sid2
  {
    ParseGradeKeyInverse(idKey, GradeKey(idKey, sid1), sid1);
    ParseGradeKeyInverse(idKey, GradeKey(idKey, sid1), sid2);
  }

  // ---------------------------------------------------------------------
  // The client
  // ---------------------------------------------------------------------

  class CanvasGrader {
    const baseUri: string
    const courseId: string
    const idKey: string
    /** The bearer token the session is bound to. */
    const apiKey: string

    /** `__init__` once the API key is known. */
    constructor (baseUri: string, courseId: string, idKey: string, apiKey: string)
      ensures this.baseUri == baseUri && this.courseId == courseId
      ensures this.idKey == idKey && this.apiKey == apiKey
    {
      this.baseUri := baseUri;
      this.courseId := courseId;
      this.idKey := idKey;
      this.apiKey := apiKey;
    }

    /** `__init__` as a whole: either a fresh client bound to the resolved key, or the error it raises. */
    static method Create(baseUri: string, courseId: string, idKey: string,
                         apiKey: Option<string>, keyFile: Option<KeyFile>)
      returns (r: Result<CanvasGrader, InitError>)
      ensures r.Failure? <==> ResolveApiKey(apiKey, keyFile).Failure?
      ensures r.Failure? ==> r.error == ResolveApiKey(apiKey, keyFile).error
      ensures r.Success? ==>
        && fresh(r.value)
        && r.value.baseUri == baseUri && r.value.courseId == courseId && r.value.idKey == idKey
        && r.value.apiKey == ResolveApiKey(apiKey, keyFile).value
    {
      var key := ResolveApiKey(apiKey, keyFile);
      if key.Failure? {
        r := Failure(key.error);
      } else {
        var client := new CanvasGrader(baseUri, courseId, idKey, key.value);
        r := Success(client);
      }
    }

    /** The URL of every request of this course, up to the path within it. */
    function CoursePrefix(): string {
      "https://" + baseUri + "/api/v1/courses/" + courseId + "/"
    }

    /** `build_url`: the course prefix followed by `path.strip('/')`. */
    function BuildUrl(path: string): string {
      CoursePrefix() + Strip(path, Slash)
    }

    /** `create_assignment`: the request it posts. */
    function CreateAssignment<P>(name: string, pointsPossible: P, published: bool := true): Request<FormValue<P>> {
      Request(BuildUrl(AssignmentsPath), map[
        "assignment[name]" := Text(name),
        "assignment[points_possible]" := Points(pointsPossible),
        "assignment[published]" := Flag(published)])
    }

    /** `grade_assignment`: the request it posts, to the update-grades path of the assignment. */
    method GradeAssignment<G>(assignmentId: string, grades: map<string, G>) returns (req: Request<G>)
      ensures req.url == BuildUrl(UpdateGradesPath(assignmentId))
      ensures forall sid :: sid in grades ==>
        GradeKey(idKey, sid) in req.data && req.data[GradeKey(idKey, sid)] == grades[sid]
      ensures forall k :: k in req.data ==> exists sid :: sid in grades && k == GradeKey(idKey, sid)
      ensures |req.data| == |grades|
    {
      var payload := GradesForCanvas(idKey, grades);
      req := Request(BuildUrl(UpdateGradesPath(assignmentId)), payload);
    }
  }

  /**
   * The loop of `grade_assignment` that builds `grades_for_canvas`: each
   * student's grade goes in under that student's grade key.
   */
  method GradesForCanvas<G>(idKey: string, grades: map<string, G>) returns (payload: map<string, G>)
    ensures forall sid :: sid in grades ==>
      GradeKey(idKey, sid) in payload && payload[GradeKey(idKey, sid)] == grades[sid]
    ensures forall k :: k in payload ==> exists sid :: sid in grades && k == GradeKey(idKey, sid)
    ensures |payload| == |grades|
  {
    payload := map[];
    var todo := grades.Keys;
    ghost var done: set<string> := {};
    while todo != {}
      invariant done + todo == grades.Keys && done !! todo
      invariant IsPayloadFor(idKey, payload, grades, done)
      decreases todo
    {
      var sid :| sid in todo;
      AddGrade(idKey, payload, grades, done, sid);
      MoveToDone(done, todo, sid);
      payload := payload[GradeKey(idKey, sid) := grades[sid]];
      todo := todo - {sid};
      done := done + {sid};
    }
    assert done == grades.Keys;
    CompletePayload(idKey, payload, grades);
  }

  /** Moving one student from `todo` to `done` keeps the two a partition of the same set. */
  lemma MoveToDone(done: set<string>, todo: set<string>, sid: string)
    requires done !! todo && sid in todo
    ensures (done + {sid}) + (todo - {sid}) == done + todo
    ensures (done + {sid}) !! (todo - {sid})
  {
  }

  /** `key` is the grade key of one of the students in `sids`. */
  predicate ParsesToOneOf(idKey: string, key: string, sids: set<string>) {
    ParseGradeKey(idKey, key).Some? && ParseGradeKey(idKey, key).value in sids
  }

  /**
   * `payload` holds, under their grade keys, the grades of exactly the
   * students in `done`, one key per student.
   */
  ghost predicate IsPayloadFor<G>(idKey: string, payload: map<string, G>, grades: map<string, G>, done: set<string>) {
    && (forall sid :: sid in done ==>
          sid in grades && GradeKey(idKey, sid) in payload && payload[GradeKey(idKey, sid)] == grades[sid])
    && (forall k :: k in payload ==> ParsesToOneOf(idKey, k, done))
    && |payload| == |done|
  }

  /** One iteration of the loop in `grade_assignment`: the next student's grade goes in under a key not yet used. */
  lemma AddGrade<G>(idKey: string, payload: map<string, G>, grades: map<string, G>, done: set<string>, sid: string)
    requires IsPayloadFor(idKey, payload, grades, done)
    requires sid in grades && sid !in done
    ensures IsPayloadFor(idKey, payload[GradeKey(idKey, sid) := grades[sid]], grades, done + {sid})
  {
    var k := GradeKey(idKey, sid);
    ParseGradeKeyInverse(idKey, k, sid);
    assert k !in payload;
    AddGradeKeys(idKey, payload, done, sid, grades[sid]);
    AddGradeValues(idKey, payload, grades, done, sid);
  }

  lemma AddGradeKeys<G>(idKey: string, payload: map<string, G>, done: set<string>, sid: string, grade: G)
    requires forall k :: k in payload ==> ParsesToOneOf(idKey, k, done)
    ensures forall k :: k in payload[GradeKey(idKey, sid) := grade] ==> ParsesToOneOf(idKey, k, done + {sid})
  {
    ParseGradeKeyInverse(idKey, GradeKey(idKey, sid), sid);
  }

  lemma AddGradeValues<G>(idKey: string, payload: map<string, G>, grades: map<string, G>, done: set<string>, sid: string)
    requires forall s :: s in done ==>
      s in grades && GradeKey(idKey, s) in payload && payload[GradeKey(idKey, s)] == grades[s]
    requires sid in grades
    ensures var payload' := payload[GradeKey(idKey, sid) := grades[sid]];
      forall s :: s in done + {sid} ==>
        s in grades && GradeKey(idKey, s) in payload' && payload'[GradeKey(idKey, s)] == grades[s]
  {
    forall s | s in done && s != sid
      ensures GradeKey(idKey, s) != GradeKey(idKey, sid)
    {
      GradeKeyInjective(idKey, s, sid);
    }
  }

  /** Once every student is done, the payload has all grades, only grade keys and one key per student. */
  lemma CompletePayload<G>(idKey: string, payload: map<string, G>, grades: map<string, G>)
    requires IsPayloadFor(idKey, payload, grades, grades.Keys)
    ensures forall sid :: sid in grades ==>
      GradeKey(idKey, sid) in payload && payload[GradeKey(idKey, sid)] == grades[sid]
    ensures forall k :: k in payload ==> exists sid :: sid in grades && k == GradeKey(idKey, sid)
    ensures |payload| == |grades|
  {
    forall k | k in payload
      ensures exists sid :: sid in grades && k == GradeKey(idKey, sid)
    {
      var sid := ParseGradeKey(idKey, k).value;
      ParseGradeKeyInverse(idKey, k, sid);
    }
  }

  // ---------------------------------------------------------------------
  // URLs
  // ---------------------------------------------------------------------

  /** A URL is the course prefix followed by `r` exactly when `r` is the path with its slash runs cut from both ends. */
  lemma BuildUrlIsPrefixAndTrimmedPath(g: CanvasGrader, path: string, r: string)
    ensures g.BuildUrl(path) == g.CoursePrefix() + r <==> IsTrimOf(r, path, Slash)
  {
    StripCharacterization(path, r, Slash);
    if g.BuildUrl(path) == g.CoursePrefix() + r {
      var p := g.CoursePrefix();
      assert r == (p + r)[|p|..];
      assert Strip(path, Slash) == (p + Strip(path, Slash))[|p|..];
    }
  }

  /** Two paths give the same URL exactly when they agree once their slash runs are cut from both ends. */
  lemma BuildUrlSameUrl(g: CanvasGrader, p: string, q: string)
    ensures g.BuildUrl(p) == g.BuildUrl(q) <==> Strip(p, Slash) == Strip(q, Slash)
  {
    var pre := g.CoursePrefix();
    if g.BuildUrl(p) == g.BuildUrl(q) {
      assert Strip(p, Slash) == g.BuildUrl(p)[|pre|..];
      assert Strip(q, Slash) == g.BuildUrl(q)[|pre|..];
    }
  }

  /** Building the URL of an already stripped path gives the same URL. */
  lemma BuildUrlOfStrippedPath(g: CanvasGrader, path: string)
    ensures g.BuildUrl(Strip(path, Slash)) == g.BuildUrl(path)
  {
    StripIdempotent(path, Slash);
  }

  /** Extra slashes added at either end of a path do not change its URL. */
  lemma BuildUrlIgnoresEdgeSlashes(g: CanvasGrader, pre: string, path: string, post: string)
    requires AllIn(pre, Slash) && AllIn(post, Slash)
    ensures g.BuildUrl(pre + path + post) == g.BuildUrl(path)
  {
    StripAbsorbsEdges(pre, path, post, Slash);
  }

  /** `build_url("/assignments/")`, `build_url("assignments")` and `build_url("//assignments//")` agree. */
  lemma BuildUrlSlashExamples(g: CanvasGrader)
    ensures g.BuildUrl("/assignments/") == g.BuildUrl("assignments") == g.BuildUrl("//assignments//")
  {
    var p := "assignments";
    assert "/assignments/" == "/" + p + "/";
    assert "//assignments//" == "//" + p + "//";
    BuildUrlIgnoresEdgeSlashes(g, "/", p, "/");
    BuildUrlIgnoresEdgeSlashes(g, "//", p, "//");
  }

  /**
   * `create_assignment` posts to `.../courses/{course_id}/assignments`, and
   * `published` is true unless the caller says otherwise.
   */
  lemma CreateAssignmentRequest<P>(g: CanvasGrader, name: string, pointsPossible: P, published: bool)
    ensures g.CreateAssignment(name, pointsPossible, published).url == g.CoursePrefix() + "assignments"
    ensures g.CreateAssignment(name, pointsPossible, published).data["assignment[published]"] == Flag(published)
    ensures g.CreateAssignment(name, pointsPossible).data["assignment[published]"] == Flag(true)
  {
    assert AssignmentsPath == "/" + "assignments" + [];
    StripPadded("/", "assignments", [], Slash);
  }

  /** `grade_assignment` posts to `.../courses/{course_id}/assignments/{id}/submissions/update_grades`, whatever the id. */
  lemma UpdateGradesUrl(g: CanvasGrader, assignmentId: string)
    ensures g.BuildUrl(UpdateGradesPath(assignmentId))
         == g.CoursePrefix() + "assignments/" + assignmentId + "/submissions/update_grades"
  {
    var inner := "assignments/" + assignmentId + "/submissions/update_grades";
    UpdateGradesPathStrips(assignmentId);
    assert g.BuildUrl(UpdateGradesPath(assignmentId)) == g.CoursePrefix() + inner;
    ConcatAssociates(g.CoursePrefix(), "assignments/", assignmentId, "/submissions/update_grades");
  }

  lemma ConcatAssociates(a: string, b: string, c: string, d: string)
    ensures a + (b + c + d) == a + b + c + d
  {
  }

  /** Only the leading slash of the update-grades path is stripped. */
  lemma UpdateGradesPathStrips(assignmentId: string)
    ensures Strip(UpdateGradesPath(assignmentId), Slash) == "assignments/" + assignmentId + "/submissions/update_grades"
  {
    var inner := "assignments/" + assignmentId + "/submissions/update_grades";
    assert UpdateGradesPath(assignmentId) == "/" + inner + [];
    assert inner[0] == 'a' && inner[|inner| - 1] == 's';
    StripPadded("/", inner, [], Slash);
  }
}
