# canvasgrader in Dafny

A model of `CanvasGrader`, a small Python client for the Canvas LMS REST API.
The client does three things:

- It finds an API key: either the caller passes one, or it is read from
  `~/.canvasgrader`. The file is refused when its mode looks too permissive.
- It builds request URLs of the form
  `https://{base_uri}/api/v1/courses/{course_id}/{path}`, with every `/` cut
  from both ends of `path`.
- It creates an assignment, or uploads a dictionary of grades to one, with a
  single form-encoded POST each.

The model covers the pure logic of these three. The HTTP traffic itself is
not modelled, so each operation returns the `Request` (URL and form fields) it
would post.

Files:

- `wrappers.dfy`: `Option` and `Result`.
- `builtins.dfy`: the Python built-ins the client relies on, restricted to how
  it uses them.
  - `str.strip(chars)` is `Strip(s, cs)`, with its characterisation.
  - `str.strip()` is `Strip(s, Whitespace)`. `Whitespace` is the 29 code
    points for which `str.isspace` holds.
  - `oct`, the slice `s[-3:]` and `int(s)` on the strings that slice can
    produce.
- `canvasgrader.dfy`: the credential check, the request paths, the grade keys
  and the class `CanvasGrader`.
  - The class has `const` fields, because `__init__` sets `base_uri`,
    `course_id` and `id_key` once and nothing changes them afterwards.
  - `BuildUrl` is a function of the class.
  - `CreateAssignment` is a function that returns its request.
  - `GradeAssignment` is a method. `GradesForCanvas` models its dictionary-building
    loop as a `while` loop that inserts one key per iteration.

Notes on the code's behaviour that the model keeps:

- The code always prefixes each student id with `id_key:`. There is no branch
  for a missing namespace.
- The code posts grades only. There are no comment fields.
- `grades` is required. Calling `grades.items()` on `None` would raise.
- The errors are Python's `RuntimeError`, with the messages of lines 20 and 24.
- An empty key, whether passed in or read from the file, is not rejected.
- The permission test is the code's literal one. The last three characters of
  `oct(st_mode)` are read as a decimal number and compared with 600. So a key
  file whose permission bits are octal 577 (`r-x rwx rwx`) or 066 (`--- rw- rw-`),
  for instance the regular-file modes 0o100577 and 0o100066, is accepted,
  although these let group and others read the key (`PermissionCheckVersusOwnerOnly`).
  With 577 the owner can read the file, so `__init__` goes on to read the key.
  With 066 the owner has no read bit, so `open` fails for a non-root owner
  (see "## Left out").
- The model follows Python 3: `oct` prints the `0o` prefix, and `str.strip()`
  removes every character for which `str.isspace` holds.
- For `st_mode < 64`, `int` raises `ValueError`. The model has this case as
  `ModeNotDecimal`. It cannot happen for a regular file (`RegularFileModeIsDecimal`).

## Model

| member | source | states |
|---|---|---|
| Builtins.StripLeading | canvasgrader/__init__.py:72 | the result is a suffix of the input, everything cut off is in the strip set, and the result does not start with a character of the set |
| Builtins.StripTrailing | canvasgrader/__init__.py:72 | the result is a prefix of the input, everything cut off is in the strip set, and the result does not end with a character of the set |
| Builtins.Strip | canvasgrader/__init__.py:72 | the stripped string neither begins nor ends with a character of the strip set, and is no longer than the input |
| Builtins.StripPadded | canvasgrader/__init__.py:72 | runs of strip characters around a stripped string are all removed, and nothing else is |
| Builtins.StripIsTrim | canvasgrader/__init__.py:72 | the result is a contiguous piece of the input, with only strip characters before and after it, so interior characters are kept |
| Builtins.TrimIsStrip | canvasgrader/__init__.py:72 | any such piece of the input that is itself stripped is exactly what strip returns |
| Builtins.StripCharacterization | canvasgrader/__init__.py:72 | strip returns r if and only if r is the input with its strip-character runs cut from both ends (both directions) |
| Builtins.StripAbsorbsEdges | canvasgrader/__init__.py:72 | adding strip characters at either end of a string does not change its strip |
| Builtins.StripIdempotent | canvasgrader/__init__.py:72 | stripping twice gives the same as stripping once |
| Builtins.OctalDigitsValue | canvasgrader/__init__.py:23 | the digits `oct` prints, read back in base 8, give the number |
| Builtins.OctLastThree | canvasgrader/__init__.py:23 | for a mode of at least 64, `oct(mode)[-3:]` is its owner, group and other octal digits |
| Builtins.OctLastThreeAsDecimal | canvasgrader/__init__.py:23 | `int(oct(mode)[-3:])` succeeds exactly when mode >= 64, and then equals owner*100 + group*10 + other |
| Builtins.ParseIntAppendDigit | canvasgrader/__init__.py:23 | appending a decimal digit to a string `int` accepts multiplies its value by ten and adds the digit |
| Builtins.ParseIntThreeDigits | canvasgrader/__init__.py:23 | `int` of any three-digit string is 100 times its first digit plus 10 times its second plus its third, leading zeros included (`int('007') == 7`) |
| Canvasgrader.ResolveApiKeyCases | canvasgrader/__init__.py:16-27 | an explicit key is used verbatim; no key file raises the missing-file error; otherwise the file is refused exactly when the mode's last three octal digits, read in decimal, exceed 600, and accepted exactly when they do not |
| Canvasgrader.FileKeyIsTrimmed | canvasgrader/__init__.py:26-27 | a key read from the file has no leading or trailing whitespace, and is the file's text with only whitespace removed from its ends |
| Canvasgrader.RegularFileModeIsDecimal | canvasgrader/__init__.py:19-23 | for a regular file, whose mode carries S_IFREG, the check never reaches the `ValueError` case |
| Canvasgrader.RegularFileCheck | canvasgrader/__init__.py:23-24 | for a regular file, the outcome depends only on the permission bits: accepted if and only if they are not too permissive, otherwise the insecure-file error |
| Canvasgrader.FileTypeBitsIgnored | canvasgrader/__init__.py:23 | the file-type bits of `st_mode` do not affect the comparison |
| Canvasgrader.AcceptedModes | canvasgrader/__init__.py:23 | the accepted modes are exactly those whose owner digit is below 6, or which are exactly 600 |
| Canvasgrader.PermissionCheckVersusOwnerOnly | canvasgrader/__init__.py:23-24 | every mode with three octal digits that is private to its owner yields a key, while every key-file mode whose permission bits are octal 577 or 066, which are not private, is accepted too |
| Canvasgrader.PermissionExamples | canvasgrader/__init__.py:23 | modes 600, 400 and 577 are accepted; 644 and 700 are rejected |
| Canvasgrader.ParseGradeKeyInverse | canvasgrader/__init__.py:59-60 | parsing a key gives back sid exactly when the key is sid's grade key (both directions) |
| Canvasgrader.GradeKeyInjective | canvasgrader/__init__.py:59-60 | two student ids get the same grade key if and only if they are equal |
| Canvasgrader.AddGrade | canvasgrader/__init__.py:57-61 | one loop iteration adds the next student's grade under a key not yet in the payload, and keeps the payload invariant |
| Canvasgrader.CompletePayload | canvasgrader/__init__.py:56-61 | once every student is processed, the payload holds every grade, holds grade keys only, and has as many entries as `grades` |
| Canvasgrader.GradesForCanvas | canvasgrader/__init__.py:56-61 | for every sid in grades, `grade_data[{id_key}:{sid}][posted_grade]` maps to exactly `grades[sid]`; every key has that form for some sid; the payload has as many entries as grades (so empty grades give an empty payload) |
| Canvasgrader.CanvasGrader.GradeAssignment | canvasgrader/__init__.py:45-66 | the request goes to the update-grades URL of the assignment, and its form data is the grade payload described above |
| Canvasgrader.CanvasGrader.constructor | canvasgrader/__init__.py:11-14 | the client keeps base URI, course id, id key and API key as given |
| Canvasgrader.CanvasGrader.Create | canvasgrader/__init__.py:11-30 | construction fails exactly when key resolution fails, with the same error; otherwise it gives a fresh client with the given fields, bound to the resolved key |
| Canvasgrader.BuildUrlIsPrefixAndTrimmedPath | canvasgrader/__init__.py:68-72 | the URL is `https://{base_uri}/api/v1/courses/{course_id}/` followed by r if and only if r is the path with its slash runs cut from both ends |
| Canvasgrader.BuildUrlSameUrl | canvasgrader/__init__.py:68-72 | two paths give the same URL if and only if they are equal once stripped of slashes |
| Canvasgrader.BuildUrlOfStrippedPath | canvasgrader/__init__.py:72 | building the URL of an already stripped path changes nothing |
| Canvasgrader.BuildUrlIgnoresEdgeSlashes | canvasgrader/__init__.py:72 | any number of extra slashes at either end of a path leave its URL unchanged |
| Canvasgrader.BuildUrlSlashExamples | canvasgrader/__init__.py:72 | the URLs of `/assignments/`, `assignments` and `//assignments//` are equal |
| Canvasgrader.CreateAssignmentRequest | canvasgrader/__init__.py:32-39 | assignment creation posts to `.../courses/{course_id}/assignments`, and its `assignment[published]` field is the given flag, true when the caller omits it |
| Canvasgrader.UpdateGradesUrl | canvasgrader/__init__.py:63-64 | grade upload posts to `.../courses/{course_id}/assignments/{assignment_id}/submissions/update_grades`, for any assignment id |
| Canvasgrader.UpdateGradesPathStrips | canvasgrader/__init__.py:64 | stripping the update-grades path removes only its leading slash, whatever the assignment id |

## Left out

- The HTTP session is not modelled. This covers `requests.Session`, the
  `Authorization: Bearer` header, `session.post`, `raise_for_status` and
  `response.json()['id']` (lines 29-30, 35-43, 63-66). Their behaviour lies in
  the `requests` library and the Canvas server, so the operations return the
  request they would post instead. What `create_assignment` returns, and what
  `grade_assignment` returns (`None`), are not modelled for the same reason.
- Filesystem access is not modelled: `os.path.expanduser`, `os.path.isfile`,
  `os.stat` and `open` (lines 18-27). The key file is a parameter instead.
  It is `None` when `isfile` is false, and otherwise holds the file's
  `st_mode` and its decoded text. Text decoding and newline translation are
  not modelled.
- The read at lines 26-27 is assumed to succeed once the permission test passes.
  Its own errors are not modelled: `open` raising `PermissionError` (for
  instance on permission bits 0o200, 0o000 or 0o066, which pass the test but
  give the owner no read bit), and
  `f.read()` raising `UnicodeDecodeError` on bytes that do not decode.
- Canvas treats grade updates as a deferred job (lines 52-53), so it reports no
  error for unknown student ids. That is server behaviour and is not modelled.
- Values are formatted with `str.format`. The model takes the formatted text:
  `base_uri`, `course_id`, `id_key`, the assignment id and each student id are
  strings. So two different Python keys with the same text, such as `123` and
  `"123"`, would share one grade key and the later one would win. The model
  cannot express that collision.
- The model treats form values (grades, points, names, flags) as opaque values
  with no encoding. The `requests` library does the encoding.
- Builtins.ParseInt: models `int` only on strings of ASCII digits and `o`, which
  are the only strings `oct(...)[-3:]` can produce. `int` also accepts signs,
  surrounding whitespace, underscores and non-ASCII digits, but none of them
  can occur here.
- Canvasgrader.GradesForCanvas: has no order for its loop. Python iterates
  over the dictionary in insertion order, while the model takes the keys in any
  order. Since the keys are distinct, the resulting dictionary is the same.
