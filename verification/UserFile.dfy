// Login and sign-up of server_tls_final.c on users.txt, and the map from names to passwords that
// they amount to when requests come one at a time.
module UserFile {
  import opened Counting
  import opened UserText

  datatype Request = Login(r: Record) | SignUp(r: Record)

  // What the comparison with one line comes to. It is undefined when sscanf wrote past a buffer or
  // when strcmp would read a buffer that has not been set.
  datatype Verdict = Match | NoMatch | Undefined

  function Judge(q: Request, f: Fields): Verdict
  {
    if f.name.Overflow? || (q.Login? && f.password.Overflow?) || f.name.Unset? then Undefined
    else if f.name.text != q.r.name then NoMatch
    else if q.SignUp? then Match
    else if f.password.Unset? then Undefined
    else if f.password.text == q.r.password then Match else NoMatch
  }

  // What the comparison says if the buffers hold these strings before sscanf.
  predicate Compares(q: Request, f: Fields, staleName: string, stalePassword: string)
  {
    && Holding(f.name, staleName) == q.r.name
    && (q.Login? ==> Holding(f.password, stalePassword) == q.r.password)
  }

  function Holding(field: Field, stale: string): string
  {
    if field.Word? then field.text else stale
  }

  predicate Overruns(q: Request, f: Fields)
  {
    f.name.Overflow? || (q.Login? && f.password.Overflow?)
  }

  ghost predicate Determined(q: Request, f: Fields)
  {
    forall n, p, n', p' :: Compares(q, f, n, p) <==> Compares(q, f, n', p')
  }

  // A verdict is given exactly when no buffer is overrun and the comparison comes out the same
  // whatever the buffers held before, and then it is that comparison's.
  lemma JudgedWhenDetermined(q: Request, line: string)
    ensures var f := Scan(line);
      && (Judge(q, f) != Undefined <==> !Overruns(q, f) && Determined(q, f))
      && (Judge(q, f) == Match ==> Compares(q, f, "", ""))
      && (Judge(q, f) == NoMatch ==> !Compares(q, f, "", ""))
  {
    var f := Scan(line);
    NoSecondWithoutFirst(line);
    assert Compares(q, f, q.r.name, q.r.password) || !Compares(q, f, q.r.name, q.r.password);
    if Judge(q, f) == Undefined && !Overruns(q, f) {
      var other := Record(q.r.name + "x", q.r.password + "x");
      assert Compares(q, f, q.r.name, q.r.password) && !Compares(q, f, other.name, other.password);
    }
  }

  lemma NoSecondWithoutFirst(line: string)
    ensures Scan(line).name.Unset? ==> Scan(line).password.Unset?
  {
    var first := SkipSpace(line);
    if TokenLength(first) == 0 {
      assert first == "" && first[0..] == "";
    }
  }

  // The first line that is not passed over decides.
  ghost predicate Decides(q: Request, fields: seq<Fields>, v: Verdict)
  {
    if v.NoMatch? then forall k :: 0 <= k < |fields| ==> Judge(q, fields[k]).NoMatch?
    else exists k :: 0 <= k < |fields| && DecidesAt(q, fields, v, k)
  }

  ghost predicate DecidesAt(q: Request, fields: seq<Fields>, v: Verdict, k: nat)
    requires k < |fields|
  {
    Judge(q, fields[k]) == v && forall j :: 0 <= j < k ==> Judge(q, fields[j]).NoMatch?
  }

  function Outcome(q: Request, fields: seq<Fields>): Verdict
  {
    if fields == [] then NoMatch
    else if Judge(q, fields[0]).NoMatch? then Outcome(q, fields[1..])
    else Judge(q, fields[0])
  }

  lemma {:induction false} OutcomeDecides(q: Request, fields: seq<Fields>, v: Verdict)
    ensures Decides(q, fields, v) <==> v == Outcome(q, fields)
  {
    if fields != [] {
      OutcomeDecides(q, fields[1..], v);
      assert forall k :: 0 < k < |fields| ==> fields[k] == fields[1..][k - 1];
      if Judge(q, fields[0]).NoMatch? {
        if k :| 0 <= k < |fields[1..]| && DecidesAt(q, fields[1..], v, k) {
          assert v != NoMatch ==> DecidesAt(q, fields, v, k + 1);
        }
        if k :| 0 <= k < |fields| && DecidesAt(q, fields, v, k) {
          assert v != NoMatch ==> DecidesAt(q, fields[1..], v, k - 1);
        }
      } else {
        assert DecidesAt(q, fields, Judge(q, fields[0]), 0);
      }
    }
  }

  // The file after a request.
  function Apply(text: string, q: Request): string
  {
    if q.SignUp? && Outcome(q, Read(text)).NoMatch? then text + Print(q.r) else text
  }

  // The answer to a request, if C defines one.
  function Granted(text: string, q: Request): Option<bool>
  {
    match Outcome(q, Read(text))
    case Undefined => None
    case Match => Some(q.Login?)
    case NoMatch => Some(q.SignUp?)
  }

  // The fgets and sscanf loops.
  method Search(text: string, q: Request) returns (v: Verdict)
    ensures Decides(q, Read(text), v)
  {
    var rest := text;
    v := NoMatch;
    ghost var before: seq<string> := [];
    while rest != "" && v == NoMatch
      invariant Lines(text) == before + Lines(rest)
      invariant SearchedSoFar(q, before, v)
      decreases |rest|
    {
      var n := LineLength(rest, LINE_SIZE - 1);
      NextLine(rest, before);
      v := Judge(q, Scan(rest[..n]));
      before := before + [rest[..n]];
      rest := rest[n..];
    }
    SearchIsOver(text, q, before, rest, v);
  }

  class Users {
    var text: string

    constructor ()
      ensures text == ""
    {
      text := "";
    }

    method Authenticate(q: Request) returns (auth: Option<bool>)
      modifies this
      ensures auth == Granted(old(text), q)
      ensures text == Apply(old(text), q)
    {
      var v := Search(text, q);
      OutcomeDecides(q, Read(text), v);
      if v == Undefined {
        return None;
      }
      match q {
        case Login(_) =>
          auth := Some(v == Match);
        case SignUp(r) =>
          auth := Some(v != Match);
          if v != Match { text := text + Print(r); }
      }
    }
  }

  // fgets moves one line from what is left to what has been read.
  lemma NextLine(rest: string, before: seq<string>)
    requires rest != ""
    ensures var n := LineLength(rest, LINE_SIZE - 1);
      0 < n <= |rest| && before + Lines(rest) == before + [rest[..n]] + Lines(rest[n..])
  {
    var n := LineLength(rest, LINE_SIZE - 1);
    LinesHead(rest);
    Regroup(before, rest[..n], Lines(rest[n..]));
  }

  lemma LinesHead(text: string)
    requires text != ""
    ensures var n := LineLength(text, LINE_SIZE - 1); Lines(text) == [text[..n]] + Lines(text[n..])
  {
  }

  lemma Regroup(a: seq<string>, x: string, b: seq<string>)
    ensures a + ([x] + b) == a + [x] + b
  {
  }

  // The lines read so far were passed over, except the last one if the search has ended.
  ghost predicate SearchedSoFar(q: Request, before: seq<string>, v: Verdict)
  {
    && (v != NoMatch ==> before != [] && Judge(q, Scan(before[|before| - 1])) == v)
    && forall k :: 0 <= k < (if v == NoMatch then |before| else |before| - 1) ==> Judge(q, Scan(before[k])) == NoMatch
  }

  // What the loop knows when it stops is what decides for the whole file.
  lemma SearchIsOver(text: string, q: Request, before: seq<string>, rest: string, v: Verdict)
    requires Lines(text) == before + Lines(rest) && (v == NoMatch ==> rest == "")
    requires SearchedSoFar(q, before, v)
    ensures Decides(q, Read(text), v)
  {
    var fields := Read(text);
    assert forall k :: 0 <= k < |before| ==> fields[k] == Scan(before[k]);
    if v != NoMatch {
      assert DecidesAt(q, fields, v, |before| - 1);
    }
  }

  // ---- What a sign-up does to any file ----

  // On a file that ends with a newline a granted sign-up, storable or not, writes its line at the
  // end, every line before it is read as before, and the file ends with a newline again. Nothing
  // else changes the file.
  lemma SignUpAddsOneLine(text: string, q: Request)
    requires Terminated(text)
    ensures Terminated(Apply(text, q))
    ensures if q.SignUp? && Granted(text, q) == Some(true)
            then Apply(text, q) == text + q.r.name + " " + q.r.password + "\n"
                 && Read(Apply(text, q)) == Read(text) + Read(Print(q.r))
            else Apply(text, q) == text
    ensures Storable(q.r) ==> Read(Print(q.r)) == [Printed(q.r)]
  {
    if q.SignUp? && Granted(text, q) == Some(true) {
      AppendedLine(text, q.r);
      ReadConcat(text, Print(q.r));
    }
    if Storable(q.r) {
      ReadRecord(q.r, "");
      assert Print(q.r) + "" == Print(q.r);
    }
  }

  lemma AppendedLine(text: string, r: Record)
    ensures text + Print(r) == text + r.name + " " + r.password + "\n" && Terminated(text + Print(r))
  {
    var line := Print(r);
    assert line[|line| - 1] == '\n';
  }

  lemma ReadConcat(a: string, b: string)
    requires Terminated(a)
    ensures Read(a + b) == Read(a) + Read(b)
  {
    LinesConcat(a, b);
    ScanAllConcat(Lines(a), Lines(b));
  }

  lemma ScanAllConcat(a: seq<string>, b: seq<string>)
    ensures ScanAll(a + b) == ScanAll(a) + ScanAll(b)
  {
  }

  // ---- The map behind the file ----

  function Passwords(records: seq<Record>): map<string, string>
  {
    if records == [] then map[]
    else
      var r := records[|records| - 1];
      Passwords(records[..|records| - 1])[r.name := r.password]
  }

  ghost predicate UniqueNames(records: seq<Record>)
  {
    forall i, j :: 0 <= i < j < |records| ==> records[i].name != records[j].name
  }

  lemma {:induction false} MapOfUnique(records: seq<Record>, name: string, password: string)
    requires UniqueNames(records)
    ensures name in Passwords(records) <==> exists k :: 0 <= k < |records| && records[k].name == name
    ensures name in Passwords(records) && Passwords(records)[name] == password
            <==> exists k :: 0 <= k < |records| && records[k] == Record(name, password)
  {
    if records != [] {
      var n := |records| - 1;
      var init := records[..n];
      MapOfUnique(init, name, password);
      assert forall k :: 0 <= k < n ==> init[k] == records[k];
      assert Passwords(records) == Passwords(init)[records[n].name := records[n].password];
      if k :| 0 <= k < n && records[k].name == name {
        assert records[k].name != records[n].name;
      }
    }
  }

  // The file is the print-out of records with distinct names.
  ghost predicate Holds(text: string, records: seq<Record>)
  {
    text == PrintAll(records) && AllStorable(records) && UniqueNames(records)
  }

  predicate MapGranted(m: map<string, string>, q: Request)
  {
    match q
    case Login(r) => r.name in m && m[r.name] == r.password
    case SignUp(r) => r.name !in m
  }

  function MapApply(m: map<string, string>, q: Request): map<string, string>
  {
    if q.SignUp? && q.r.name !in m then m[q.r.name := q.r.password] else m
  }

  // Some record has the requested name and, for a login, the password.
  ghost predicate Present(records: seq<Record>, q: Request)
  {
    exists k :: 0 <= k < |records| && if q.Login? then records[k] == q.r else records[k].name == q.r.name
  }

  lemma StoredOutcome(records: seq<Record>, q: Request)
    ensures Outcome(q, Stored(records)) == if Present(records, q) then Match else NoMatch
  {
    var v := Outcome(q, Stored(records));
    OutcomeDecides(q, Stored(records), v);
    forall k | 0 <= k < |records|
      ensures Judge(q, Stored(records)[k])
           == if (if q.Login? then records[k] == q.r else records[k].name == q.r.name) then Match else NoMatch
    {
    }
  }

  lemma FileAnswersLikeMap(text: string, records: seq<Record>, q: Request)
    requires Holds(text, records)
    ensures Granted(text, q) == Some(MapGranted(Passwords(records), q))
    ensures q.SignUp? ==> (Outcome(q, Read(text)).NoMatch? <==> q.r.name !in Passwords(records))
  {
    FileRoundTrip(records);
    MapOfUnique(records, q.r.name, q.r.password);
    StoredOutcome(records, q);
  }

  lemma RequestKeepsFile(text: string, records: seq<Record>, q: Request) returns (records': seq<Record>)
    requires Holds(text, records) && (q.SignUp? ==> Storable(q.r))
    ensures Holds(Apply(text, q), records')
    ensures Passwords(records') == MapApply(Passwords(records), q)
  {
    FileAnswersLikeMap(text, records, q);
    if q.SignUp? && q.r.name !in Passwords(records) {
      records' := records + [q.r];
      PrintAppend(records, q.r);
      assert records'[..|records|] == records;
      forall k | 0 <= k < |records| ensures records[k].name != q.r.name {
        MapOfUnique(records, records[k].name, records[k].password);
      }
    } else {
      records' := records;
    }
  }

  // ---- Any sequence of requests ----

  function Run(text: string, requests: seq<Request>): (string, seq<Option<bool>>)
    decreases |requests|
  {
    if requests == [] then (text, [])
    else
      var (end, answers) := Run(Apply(text, requests[0]), requests[1..]);
      (end, [Granted(text, requests[0])] + answers)
  }

  function MapRun(m: map<string, string>, requests: seq<Request>): (map<string, string>, seq<Option<bool>>)
    decreases |requests|
  {
    if requests == [] then (m, [])
    else
      var (end, answers) := MapRun(MapApply(m, requests[0]), requests[1..]);
      (end, [Some(MapGranted(m, requests[0]))] + answers)
  }

  lemma {:induction false} RunRefines(text: string, records: seq<Record>, requests: seq<Request>)
    returns (records': seq<Record>)
    requires Holds(text, records)
    requires forall k :: 0 <= k < |requests| && requests[k].SignUp? ==> Storable(requests[k].r)
    ensures Holds(Run(text, requests).0, records')
    ensures MapRun(Passwords(records), requests) == (Passwords(records'), Run(text, requests).1)
    decreases |requests|
  {
    if requests == [] {
      records' := records;
    } else {
      FileAnswersLikeMap(text, records, requests[0]);
      var next := RequestKeepsFile(text, records, requests[0]);
      records' := RunRefines(Apply(text, requests[0]), next, requests[1..]);
    }
  }

  // Starting from an empty file, any sequence of logins and storable sign-ups is answered as by
  // a map from names to passwords.
  lemma AnswersAreThoseOfAMap(requests: seq<Request>)
    requires forall k :: 0 <= k < |requests| && requests[k].SignUp? ==> Storable(requests[k].r)
    ensures Run("", requests).1 == MapRun(map[], requests).1
  {
    var records := RunRefines("", [], requests);
  }

  // Afterwards the file reads back as records with distinct names that hold exactly that map.
  lemma FileHoldsTheMap(requests: seq<Request>) returns (records: seq<Record>)
    requires forall k :: 0 <= k < |requests| && requests[k].SignUp? ==> Storable(requests[k].r)
    ensures UniqueNames(records) && Passwords(records) == MapRun(map[], requests).0
    ensures Read(Run("", requests).0) == Stored(records)
  {
    records := RunRefines("", [], requests);
    FileRoundTrip(records);
  }
}
