/** The one `code` column shared by generated and custom codes
    (internal/service/url.go, createOne and validateCustomCode), over every history
    of interleaved creates, crashes and deletes. */
module CodeSpace {
  import opened Common
  import opened Schema
  import Base62

  function Lower(s: string): string {
    seq(|s|, i requires 0 <= i < |s| => if 'A' <= s[i] <= 'Z' then s[i] + 32 as char else s[i])
  }

  const RESERVED: set<string> := {"api", "health", "ready", "metrics"}

  /** validateCustomCode. */
  predicate ValidCustom(code: string) {
    3 <= |code| <= 32 && (forall c | c in code :: CodeChar(c)) && Lower(code) !in RESERVED
  }

  /** The word, in whatever mixture of capitals and small letters. */
  predicate SameLetters(code: string, word: string) {
    && |code| == |word|
    && forall i | 0 <= i < |code| :: code[i] == word[i] || ('A' <= code[i] <= 'Z' && code[i] + 32 as char == word[i])
  }

  lemma LowerIs(code: string, word: string)
    requires forall c | c in word :: 'a' <= c <= 'z'
    ensures Lower(code) == word <==> SameLetters(code, word)
  {
    if SameLetters(code, word) {
      forall i | 0 <= i < |code| ensures Lower(code)[i] == word[i] {
        assert word[i] in word;
      }
    } else if |code| == |word| {
      var i :| 0 <= i < |code| && code[i] != word[i] && !('A' <= code[i] <= 'Z' && code[i] + 32 as char == word[i]);
      assert Lower(code)[i] != word[i];
    }
  }

  /** 3 to 32 letters, digits, underscores and hyphens that do not spell a path of the service. */
  lemma ValidCustomIff(code: string)
    ensures ValidCustom(code) <==>
      && 3 <= |code| <= 32
      && (forall c | c in code :: 'a' <= c <= 'z' || 'A' <= c <= 'Z' || '0' <= c <= '9' || c == '_' || c == '-')
      && forall w | w in ["api", "health", "ready", "metrics"] :: !SameLetters(code, w)
  {
    LowerIs(code, "api");
    LowerIs(code, "health");
    LowerIs(code, "ready");
    LowerIs(code, "metrics");
    assert forall w | w in ["api", "health", "ready", "metrics"] :: w in RESERVED;
  }

  /** `inFlight`: rows inserted by an auto create that has still to call SetCode.
      `stranded`: rows whose creator never will, or whose SetCode did not take effect.
      `custom`: every id ever inserted with a custom code. */
  datatype State = State(db: Db, inFlight: set<nat>, stranded: set<nat>, custom: set<nat>)

  datatype Label =
    | InsertAuto(longURL: string, expiresAt: Option<int>, at: int, out: Outcome)
    | InsertCustom(code: string, longURL: string, expiresAt: Option<int>, at: int, out: Outcome)
    | AssignCode(id: nat, out: Outcome)
    | Abandon(id: nat)
    | Remove(code: string, out: Outcome)

  const INIT := State(EMPTY, {}, {}, {})

  /** One call on the table, or None when no client could make it. */
  ghost function Next(s: State, l: Label): Option<State> {
    match l
    case InsertAuto(u, e, at, out) =>
      if out == Fail then Some(s)
      else
        var (db, r) := Insert(s.db, None, u, e, at);
        Some(if r.Refused? then s.(db := db)
             else if out == Ok then s.(db := db, inFlight := s.inFlight + {r.value})
             else s.(db := db, stranded := s.stranded + {r.value}))
    case InsertCustom(code, u, e, at, out) =>
      if !ValidCustom(code) then None
      else if out == Fail then Some(s)
      else
        var (db, r) := Insert(s.db, Some(code), u, e, at);
        Some(if r.Refused? then s.(db := db)
             else s.(db := db, custom := s.custom + {r.value}))
    case AssignCode(id, out) =>
      if id !in s.inFlight then None
      else
        var (db, r) := Assign(s.db, id, Base62.Encode(id));
        Some(if out == Fail || r.Refused? then s.(inFlight := s.inFlight - {id}, stranded := s.stranded + {id})
             else s.(db := db, inFlight := s.inFlight - {id}))
    case Abandon(id) =>
      if id !in s.inFlight then None
      else Some(s.(inFlight := s.inFlight - {id}, stranded := s.stranded + {id}))
    case Remove(code, out) =>
      Some(if out == Fail then s else s.(db := Delete(s.db, code).0))
  }

  ghost function Run(s: State, ls: seq<Label>): Option<State>
    decreases |ls|
  {
    if ls == [] then Some(s)
    else
      var t := Next(s, ls[0]);
      if t.None? then None else Run(t.value, ls[1..])
  }

  ghost predicate Inv(s: State) {
    && Consistent(s.db)
    && s.inFlight !! s.stranded
    && (forall id | id in s.inFlight + s.stranded :: id in s.db.rows)
    && (forall id | id in s.custom :: id < s.db.nextId)
    && (forall id | id in s.db.rows :: s.db.rows[id].code == None <==> id in s.inFlight + s.stranded)
    && (forall id | id in s.db.rows && s.db.rows[id].code.Some? ::
          if id in s.custom then ValidCustom(s.db.rows[id].code.value)
          else s.db.rows[id].code.value == Base62.Encode(id))
    && (forall id | id in s.custom :: id !in s.inFlight + s.stranded)
  }

  /** A coded row of `s` is unchanged or gone in `t`, and no id is ever given out again. */
  ghost predicate Settled(s: State, t: State) {
    && s.db.nextId <= t.db.nextId
    && (forall id | id in s.db.rows && s.db.rows[id].code.Some? && id in t.db.rows :: t.db.rows[id] == s.db.rows[id])
    && (forall id | id in t.db.rows && id < s.db.nextId :: id in s.db.rows)
  }

  /** The generated code of a row id always satisfies the column's format check. */
  lemma GeneratedCodeFits(id: nat)
    requires id <= MAX_ID
    ensures CodeFormat(Base62.Encode(id))
  {
    var code := Base62.Encode(id);
    Base62.ElevenDigitsSuffice(id);
    Base62.EncodeRoundTrip(id);
    forall c | c in code ensures CodeChar(c) {
      Base62.AlphabetIsAlphanumeric(c);
    }
  }

  lemma InsertAutoKeeps(s: State, l: Label)
    requires Inv(s) && l.InsertAuto?
    ensures Inv(Next(s, l).value) && Settled(s, Next(s, l).value)
  {
    InsertKeeps(s.db, None, l.longURL, l.expiresAt, l.at);
  }

  lemma InsertCustomKeeps(s: State, l: Label)
    requires Inv(s) && l.InsertCustom? && Next(s, l).Some?
    ensures Inv(Next(s, l).value) && Settled(s, Next(s, l).value)
  {
    InsertKeeps(s.db, Some(l.code), l.longURL, l.expiresAt, l.at);
    if l.out != Fail && Insert(s.db, Some(l.code), l.longURL, l.expiresAt, l.at).1.Done? {
      CustomRowKeeps(s, Next(s, l).value, Row(s.db.nextId, Some(l.code), l.longURL, l.expiresAt, l.at));
    }
  }

  lemma CustomRowKeeps(s: State, t: State, row: Row)
    requires Inv(s) && row.code.Some? && ValidCustom(row.code.value) && row.id == s.db.nextId
    requires t == s.(db := s.db.(rows := s.db.rows[row.id := row], nextId := row.id + 1), custom := s.custom + {row.id})
    requires Consistent(t.db)
    ensures Inv(t) && Settled(s, t)
  {}

  lemma AssignCodeKeeps(s: State, l: Label)
    requires Inv(s) && l.AssignCode? && Next(s, l).Some?
    ensures Inv(Next(s, l).value) && Settled(s, Next(s, l).value)
  {
    AssignKeeps(s.db, l.id, Base62.Encode(l.id));
  }

  lemma RemoveKeeps(s: State, l: Label)
    requires Inv(s) && l.Remove?
    ensures Inv(Next(s, l).value) && Settled(s, Next(s, l).value)
  {
    DeleteKeeps(s.db, l.code);
  }

  lemma StepKeepsInv(s: State, l: Label)
    requires Inv(s) && Next(s, l).Some?
    ensures Inv(Next(s, l).value)
    ensures Settled(s, Next(s, l).value)
  {
    match l
    case InsertAuto(u, e, at, out) => InsertAutoKeeps(s, l);
    case InsertCustom(code, u, e, at, out) => InsertCustomKeeps(s, l);
    case AssignCode(id, out) => AssignCodeKeeps(s, l);
    case Abandon(id) =>
    case Remove(code, out) => RemoveKeeps(s, l);
  }

  /** No call changes a stored row but SetCode, which gives it the code of its id. */
  lemma ContentsStay(s: State, l: Label)
    requires Inv(s) && Next(s, l).Some?
    ensures var t := Next(s, l).value; forall id | id in s.db.rows && id in t.db.rows ::
      t.db.rows[id] == s.db.rows[id] || t.db.rows[id] == s.db.rows[id].(code := Some(Base62.Encode(id)))
  {}

  /** Over every history the invariant holds, coded rows never change and ids are not reused. */
  lemma {:induction false} HistoryKeepsInv(s: State, ls: seq<Label>)
    requires Inv(s) && Run(s, ls).Some?
    ensures Inv(Run(s, ls).value) && Settled(s, Run(s, ls).value)
    decreases |ls|
  {
    if ls != [] {
      var t := Next(s, ls[0]).value;
      StepKeepsInv(s, ls[0]);
      HistoryKeepsInv(t, ls[1..]);
      SettledTransitive(s, t, Run(s, ls).value);
    }
  }

  lemma SettledTransitive(s: State, t: State, u: State)
    requires Settled(s, t) && Settled(t, u)
    requires forall id | id in s.db.rows :: id < s.db.nextId
    ensures Settled(s, u)
  {}

  ghost predicate HeldByCustom(s: State, code: string) {
    exists j | j in s.db.rows && j in s.custom :: s.db.rows[j].code == Some(code)
  }

  /** SetCode for a row in flight conflicts exactly when a live custom row carries the code;
      it is refused for no other reason, and never for an id below 62 * 62. */
  lemma AssignConflictsIff(s: State, id: nat)
    requires Inv(s) && id in s.inFlight
    ensures Assign(s.db, id, Base62.Encode(id)).1 ==
            if HeldByCustom(s, Base62.Encode(id)) then Refused(Conflict) else Done(())
    ensures id < 62 * 62 ==> Assign(s.db, id, Base62.Encode(id)).1 == Done(())
  {
    var code := Base62.Encode(id);
    GeneratedCodeFits(id);
    Base62.EncodeLength(id, 2);
    forall j | j in s.db.rows && j !in s.custom ensures s.db.rows[j].code != Some(code) {
      if s.db.rows[j].code == Some(code) {
        Base62.EncodeInjective(id, j);
      }
    }
  }

  /** Some history leads to a create whose generated code n is already taken. */
  ghost predicate CanCollide(n: nat) {
    exists ls | Run(INIT, ls).Some? ::
      n in Run(INIT, ls).value.inFlight &&
      Assign(Run(INIT, ls).value.db, n, Base62.Encode(n)).1 == Refused(Conflict)
  }

  /** The "codegen collision" branch is live for id n exactly when base 62 spells n
      with a string a user may choose. */
  lemma CollisionPossibleIff(n: nat)
    requires n <= MAX_ID
    ensures CanCollide(n) <==> ValidCustom(Base62.Encode(n))
  {
    var code := Base62.Encode(n);
    if CanCollide(n) {
      var ls :| Run(INIT, ls).Some? && n in Run(INIT, ls).value.inFlight &&
        Assign(Run(INIT, ls).value.db, n, code).1 == Refused(Conflict);
      HistoryKeepsInv(INIT, ls);
      AssignConflictsIff(Run(INIT, ls).value, n);
    }
    if ValidCustom(code) {
      Base62.EncodeLength(n, 2);
      var first := InsertCustom(code, "u", None, 0, Ok);
      var s := Next(INIT, first).value;
      StepKeepsInv(INIT, first);
      assert s.db.rows[1].code == Some(code);
      var rest := FillUpTo(s, n);
      var t := Run(s, rest).value;
      HistoryKeepsInv(s, rest);
      assert HeldByCustom(t, code);
      AssignConflictsIff(t, n);
      assert ([first] + rest)[1..] == rest;
      assert Run(INIT, [first] + rest) == Some(t);
    }
  }

  /** Auto creates can always take the sequence up to n and leave n in flight. */
  lemma {:induction false} FillUpTo(s: State, n: nat) returns (ls: seq<Label>)
    requires Inv(s) && s.db.nextId <= n <= MAX_ID
    ensures Run(s, ls).Some?
    ensures n in Run(s, ls).value.inFlight
    ensures s.custom <= Run(s, ls).value.custom
    ensures forall id | id in s.db.rows :: id in Run(s, ls).value.db.rows
    decreases n - s.db.nextId
  {
    var l := InsertAuto("u", None, 0, Ok);
    var t := Next(s, l).value;
    StepKeepsInv(s, l);
    ls := [l];
    if t.db.nextId <= n {
      var more := FillUpTo(t, n);
      ls := [l] + more;
      assert ls[1..] == more;
    } else {
      assert ls[1..] == [];
    }
  }
}
