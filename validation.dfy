/** The server's rule checker `validateUser` (backend/app.js): the error
    messages a user record earns before it may be inserted or updated. */
module Validation {
  import opened Js

  const NomeObrigatorio := "Nome é obrigatório"
  const EmailObrigatorio := "Email é obrigatório"
  const EmailInvalido := "Email inválido"

  /** A character matched by the class `[^\s@]`. */
  predicate Plain(c: char)
  {
    c != '@' && !IsSpace(c)
  }

  /** Every character of s[lo..hi] is matched by `[^\s@]`. */
  ghost predicate PlainRun(s: string, lo: int, hi: int)
    requires 0 <= lo <= hi <= |s|
  {
    forall k :: lo <= k < hi ==> Plain(s[k])
  }

  /** What `/^[^\s@]+@[^\s@]+\.[^\s@]+$/.test(s)` accepts, read off the
      pattern: s is L + "@" + A + "." + B with L, A and B non-empty runs of
      `[^\s@]` (the `@` sits at i, the `.` at j). */
  ghost predicate RegexMatch(s: string)
  {
    exists i, j ::
      && 0 < i && i + 1 < j && j + 1 < |s|
      && s[i] == '@' && s[j] == '.'
      && PlainRun(s, 0, i) && PlainRun(s, i + 1, j) && PlainRun(s, j + 1, |s|)
  }

  /** The number of occurrences of c in s. */
  function Count(s: string, c: char): (n: nat)
    ensures n <= |s|
    ensures n == 0 <==> c !in s
  {
    if s == [] then 0 else (if s[0] == c then 1 else 0) + Count(s[1..], c)
  }

  /** The first position of c in s (`indexOf`). */
  function IndexOf(s: string, c: char): (i: nat)
    requires c in s
    ensures i < |s| && s[i] == c
    ensures c !in s[..i]
  {
    if s[0] == c then 0 else 1 + IndexOf(s[1..], c)
  }

  /** There is a `.` with at least one character before it and one after it. */
  predicate HasInnerDot(d: string)
  {
    exists k :: 0 < k < |d| - 1 && d[k] == '.'
  }

  /** The email shape, characterised by counting: no whitespace, exactly one
      `@`, something before it, and a domain after it with an inner `.`. */
  predicate EmailShape(s: string)
  {
    && (forall k :: 0 <= k < |s| ==> !IsSpace(s[k]))
    && Count(s, '@') == 1
    && var i := IndexOf(s, '@');
       0 < i && HasInnerDot(s[i + 1..])
  }

  lemma {:induction false} CountSplit(s: string, i: nat, c: char)
    requires i <= |s|
    ensures Count(s, c) == Count(s[..i], c) + Count(s[i..], c)
  {
    if i > 0 {
      CountSplit(s[1..], i - 1, c);
      assert s[1..][..i - 1] == s[..i][1..];
      assert s[1..][i - 1..] == s[i..];
    }
  }

  /** With an `@` at position i, there is exactly one `@` exactly when no
      other position holds one. */
  lemma SingleAt(s: string, i: nat)
    requires i < |s| && s[i] == '@'
    ensures Count(s, '@') == 1 <==> forall k :: 0 <= k < |s| && k != i ==> s[k] != '@'
  {
    CountSplit(s, i, '@');
    CountSplit(s[i..], 1, '@');
    assert s[i..][1..] == s[i + 1..];
    assert s[i..][..1] == [s[i]];
    if Count(s, '@') == 1 {
      forall k | 0 <= k < |s| && k != i ensures s[k] != '@' {
        if k < i {
          assert s[k] == s[..i][k];
        } else {
          assert s[k] == s[i + 1..][k - i - 1];
        }
      }
    } else {
      assert Count(s[..i], '@') > 0 || Count(s[i + 1..], '@') > 0;
      if Count(s[..i], '@') > 0 {
        var k :| 0 <= k < i && s[..i][k] == '@';
        assert s[k] == '@';
      } else {
        var k :| 0 <= k < |s| - i - 1 && s[i + 1..][k] == '@';
        assert s[i + 1 + k] == '@';
      }
    }
  }

  lemma ShapeImpliesRegex(s: string)
    requires EmailShape(s)
    ensures RegexMatch(s)
  {
    var i := IndexOf(s, '@');
    SingleAt(s, i);
    var d := s[i + 1..];
    var k :| 0 < k < |d| - 1 && d[k] == '.';
    var j := i + 1 + k;
    assert s[j] == '.';
    assert forall m :: 0 <= m < |s| && m != i ==> Plain(s[m]);
    assert PlainRun(s, 0, i) && PlainRun(s, i + 1, j) && PlainRun(s, j + 1, |s|);
  }

  lemma RegexImpliesShape(s: string)
    requires RegexMatch(s)
    ensures EmailShape(s)
  {
    var i, j :| && 0 < i && i + 1 < j && j + 1 < |s|
                && s[i] == '@' && s[j] == '.'
                && PlainRun(s, 0, i) && PlainRun(s, i + 1, j) && PlainRun(s, j + 1, |s|);
    assert forall m :: 0 <= m < |s| && m != i ==> Plain(s[m]) by {
      forall m | 0 <= m < |s| && m != i ensures Plain(s[m]) {
        if m == j {
          assert s[m] == '.';
        }
      }
    }
    assert !IsSpace(s[i]);
    SingleAt(s, i);
    assert IndexOf(s, '@') == i;
    assert s[i + 1..][j - i - 1] == '.';
  }

  /** The counting characterisation and the pattern accept the same strings. */
  lemma EmailShapeIsRegex(s: string)
    ensures EmailShape(s) <==> RegexMatch(s)
  {
    if EmailShape(s) {
      ShapeImpliesRegex(s);
    }
    if RegexMatch(s) {
      RegexImpliesShape(s);
    }
  }

  /** `validateUser(user)`: the messages for a falsy `nome`, a falsy `email`,
      and a truthy `email` whose string form the pattern rejects, in that
      order. There is no trim, so a whitespace-only value is accepted. */
  function ValidateUser(user: JsObject): (errors: seq<string>)
    ensures |errors| <= 2
    ensures NomeObrigatorio in errors <==> !Truthy(Prop(user, "nome"))
    ensures EmailObrigatorio in errors <==> !Truthy(Prop(user, "email"))
    ensures EmailInvalido in errors <==>
              Truthy(Prop(user, "email")) && !RegexMatch(ToStr(Prop(user, "email")))
    ensures errors == [] <==>
              && Truthy(Prop(user, "nome"))
              && Truthy(Prop(user, "email"))
              && RegexMatch(ToStr(Prop(user, "email")))
    ensures !(EmailObrigatorio in errors && EmailInvalido in errors)
    ensures NomeObrigatorio in errors ==> errors[0] == NomeObrigatorio
    ensures forall a, b :: 0 <= a < b < |errors| ==> errors[a] != errors[b]
    ensures forall k :: 0 <= k < |errors| ==>
              errors[k] == NomeObrigatorio || errors[k] == EmailObrigatorio || errors[k] == EmailInvalido
  {
    var nome := Prop(user, "nome");
    var email := Prop(user, "email");
    EmailShapeIsRegex(ToStr(email));
    (if !Truthy(nome) then [NomeObrigatorio] else [])
    + (if !Truthy(email) then [EmailObrigatorio] else [])
    + (if Truthy(email) && !EmailShape(ToStr(email)) then [EmailInvalido] else [])
  }

  /** A truthy `email` that is a number or a boolean never passes: its string
      form has no `@`. */
  lemma NonStringEmailInvalid(user: JsObject)
    requires Truthy(Prop(user, "email"))
    requires !Prop(user, "email").Str? && !Prop(user, "email").Arr?
    ensures ValidateUser(user) == (if Truthy(Prop(user, "nome")) then [] else [NomeObrigatorio]) + [EmailInvalido]
  {
    var s := ToStr(Prop(user, "email"));
    ScalarStringsHaveNoAt(Prop(user, "email"));
    EmailShapeIsRegex(s);
  }

  /** The examples of the email pattern: "a@b.c" passes, "bad", "a@b" and
      "a b@c.d" fail. */
  lemma EmailExamples()
    ensures RegexMatch("a@b.c")
    ensures !RegexMatch("bad") && !RegexMatch("a@b") && !RegexMatch("a b@c.d")
  {
    EmailShapeIsRegex("a@b.c");
    assert "a@b.c"[1] == '@';
    assert "a@b.c"[2..][1] == '.';
    EmailShapeIsRegex("bad");
    EmailShapeIsRegex("a@b");
    EmailShapeIsRegex("a b@c.d");
    assert IsSpace("a b@c.d"[1]);
  }

  /** Any non-empty string name passes the server's name check, a
      whitespace-only one among them: nothing trims it. */
  lemma WhitespaceNomeAccepted(user: JsObject)
    requires Prop(user, "nome").Str? && Prop(user, "nome").s != ""
    ensures NomeObrigatorio !in ValidateUser(user)
    ensures ValidateUser(user) == [] <==>
              Truthy(Prop(user, "email")) && RegexMatch(ToStr(Prop(user, "email")))
  {
  }

  /** An array `email` is truthy even when it is empty, and is tested
      through its string form: a one-string array passes exactly when its
      string would, and an empty array earns "Email inválido". */
  lemma ArrayEmailTested(nome: string, e: string)
    requires nome != ""
    ensures (ValidateUser(map["nome" := Str(nome), "email" := Arr([Str(e)])]) == []) <==> RegexMatch(e)
    ensures ValidateUser(map["nome" := Str(nome), "email" := Arr([])]) == [EmailInvalido]
  {
    ArrayToStr(Str(e));
    EmailShapeIsRegex("");
  }

  /** `{nome: "A", email: ["a@b.c"]}` is accepted, as JavaScript does. */
  lemma ArrayEmailExample()
    ensures ValidateUser(map["nome" := Str("A"), "email" := Arr([Str("a@b.c")])]) == []
  {
    ArrayEmailTested("A", "a@b.c");
    EmailExamples();
  }

  /** A record whose name is a single space and whose email is "a@b.c" is
      accepted as it is. */
  lemma SpaceNomeExample()
    ensures ValidateUser(map["nome" := Str(" "), "email" := Str("a@b.c")]) == []
  {
    EmailExamples();
  }

  lemma AnaIsValid()
    ensures ValidateUser(map["nome" := Str("Ana"), "email" := Str("ana@x.com")]) == []
  {
    var s := "ana@x.com";
    assert s[3] == '@' && s[5] == '.';
    assert PlainRun(s, 0, 3) && PlainRun(s, 4, 5) && PlainRun(s, 6, |s|);
  }

  /** An empty name and "bad" earn both messages, name first. */
  lemma EmptyNameAndBadEmail()
    ensures ValidateUser(map["nome" := Str(""), "email" := Str("bad")]) == [NomeObrigatorio, EmailInvalido]
  {
    EmailExamples();
  }
}
