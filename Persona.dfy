/**
 * `getPersona` (index.js:157-165): the value of the first `--persona=...`
 * option in the additional workflow arguments. The arguments are split on
 * single spaces and each token on '='; the first token whose first piece is
 * exactly "--persona" decides the result, which is its second piece, or
 * `undefined` when it has none. No matching token also gives `undefined`.
 */
module Persona {

  import opened Wrappers
  import opened JsText

  const PERSONA_FLAG := "--persona"

  predicate NamesPersona(token: string)
  {
    Split(token, '=')[0] == PERSONA_FLAG
  }

  /** Token `i` is the first that names the persona option. */
  predicate FirstPersonaToken(tokens: seq<string>, i: int)
  {
    0 <= i < |tokens| && NamesPersona(tokens[i]) &&
    forall j :: 0 <= j < i ==> !NamesPersona(tokens[j])
  }

  /** The search loop of `getPersona`, returning early on the first match. */
  function FirstPersona(tokens: seq<string>): Option<string>
  {
    if tokens == [] then None
    else
      var opt := Split(tokens[0], '=');
      if opt[0] == PERSONA_FLAG then At(opt, 1)
      else FirstPersona(tokens[1..])
  }

  function GetPersona(additionalWorkflowArgs: string): Option<string>
  {
    FirstPersona(Split(additionalWorkflowArgs, ' '))
  }

  /** `getPersona` (lines 157-165) as the loop it is: the first option whose
      name is `--persona` decides, and falling off the end is `undefined`. */
  method FindPersona(additionalWorkflowArgs: string) returns (persona: Option<string>)
    ensures persona == GetPersona(additionalWorkflowArgs)
  {
    var options := Split(additionalWorkflowArgs, ' ');
    var i := 0;
    while i < |options|
      invariant 0 <= i <= |options|
      invariant FirstPersona(options[i..]) == FirstPersona(options)
    {
      var opt := Split(options[i], '=');
      if opt[0] == PERSONA_FLAG {
        persona := At(opt, 1);
        return;
      }
      assert options[i..][1..] == options[i + 1..];
      i := i + 1;
    }
    persona := None;
  }

  /** The first matching token decides the result, whatever follows it. */
  lemma {:induction false} FirstPersonaAt(tokens: seq<string>, i: int)
    requires FirstPersonaToken(tokens, i)
    ensures FirstPersona(tokens) == At(Split(tokens[i], '='), 1)
  {
    if i > 0 {
      assert !NamesPersona(tokens[0]);
      assert FirstPersonaToken(tokens[1..], i - 1) by {
        forall j | 0 <= j < i - 1 ensures !NamesPersona(tokens[1..][j]) {
          assert tokens[1..][j] == tokens[j + 1];
        }
      }
      FirstPersonaAt(tokens[1..], i - 1);
    }
  }

  /** Without a matching token the result is `undefined`. */
  lemma {:induction false} FirstPersonaAbsent(tokens: seq<string>)
    requires forall j :: 0 <= j < |tokens| ==> !NamesPersona(tokens[j])
    ensures FirstPersona(tokens) == None
  {
    if tokens != [] {
      assert !NamesPersona(tokens[0]);
      forall j | 0 <= j < |tokens| - 1 ensures !NamesPersona(tokens[1..][j]) {
        assert tokens[1..][j] == tokens[j + 1];
      }
      FirstPersonaAbsent(tokens[1..]);
    }
  }

  /** A token either matches first somewhere, or no token matches at all. */
  lemma {:induction false} FirstOrNone(tokens: seq<string>)
    ensures (exists i :: FirstPersonaToken(tokens, i)) ||
            (forall j :: 0 <= j < |tokens| ==> !NamesPersona(tokens[j]))
  {
    if tokens != [] && !NamesPersona(tokens[0]) {
      FirstOrNone(tokens[1..]);
      if exists i :: FirstPersonaToken(tokens[1..], i) {
        var i :| FirstPersonaToken(tokens[1..], i);
        forall j | 0 <= j < i + 1 ensures !NamesPersona(tokens[j]) {
          if j > 0 { assert tokens[j] == tokens[1..][j - 1]; }
        }
        assert FirstPersonaToken(tokens, i + 1);
      } else {
        forall j | 0 <= j < |tokens| ensures !NamesPersona(tokens[j]) {
          if j > 0 { assert tokens[j] == tokens[1..][j - 1]; }
        }
      }
    } else if tokens != [] {
      assert FirstPersonaToken(tokens, 0);
    }
  }

  lemma FirstIsUnique(tokens: seq<string>, i: int, k: int)
    requires FirstPersonaToken(tokens, i) && FirstPersonaToken(tokens, k)
    ensures i == k
  {
  }

  /** `getPersona` returns `v` exactly when the first "--persona" token has
      `v` as the piece between its first and second '='. */
  lemma GetPersonaSome(args: string, v: string)
    ensures GetPersona(args) == Some(v) <==>
            exists i :: FirstPersonaToken(Split(args, ' '), i) &&
                        At(Split(Split(args, ' ')[i], '='), 1) == Some(v)
  {
    var tokens := Split(args, ' ');
    FirstOrNone(tokens);
    if exists i :: FirstPersonaToken(tokens, i) {
      var i :| FirstPersonaToken(tokens, i);
      FirstPersonaAt(tokens, i);
      assert GetPersona(args) == FirstPersona(tokens);
      if FirstPersona(tokens) == Some(v) {
        assert FirstPersonaToken(tokens, i) && At(Split(tokens[i], '='), 1) == Some(v);
        assert exists k :: FirstPersonaToken(Split(args, ' '), k) &&
                           At(Split(Split(args, ' ')[k], '='), 1) == Some(v);
      } else {
        forall k | FirstPersonaToken(tokens, k) ensures At(Split(tokens[k], '='), 1) != Some(v) {
          FirstIsUnique(tokens, i, k);
        }
      }
    } else {
      FirstPersonaAbsent(tokens);
    }
  }

  /** `getPersona` is `undefined` exactly when no token names the option, or
      the first one that does has no '='. */
  lemma GetPersonaNone(args: string)
    ensures GetPersona(args) == None <==>
            (forall j :: 0 <= j < |Split(args, ' ')| ==> !NamesPersona(Split(args, ' ')[j])) ||
            (exists i :: FirstPersonaToken(Split(args, ' '), i) && |Split(Split(args, ' ')[i], '=')| == 1)
  {
    var tokens := Split(args, ' ');
    FirstOrNone(tokens);
    if exists i :: FirstPersonaToken(tokens, i) {
      var i :| FirstPersonaToken(tokens, i);
      FirstPersonaAt(tokens, i);
      forall k | FirstPersonaToken(tokens, k) ensures k == i {
        FirstIsUnique(tokens, i, k);
      }
    } else {
      FirstPersonaAbsent(tokens);
    }
  }

  /** The persona never holds a space or an '='. */
  lemma PersonaIsOnePiece(args: string)
    ensures GetPersona(args).Some? ==>
              ' ' !in GetPersona(args).value && '=' !in GetPersona(args).value
  {
    var tokens := Split(args, ' ');
    FirstOrNone(tokens);
    if exists i :: FirstPersonaToken(tokens, i) {
      var i :| FirstPersonaToken(tokens, i);
      FirstPersonaAt(tokens, i);
      SplitKeepsAbsent(tokens[i], '=', ' ');
    } else {
      FirstPersonaAbsent(tokens);
    }
  }

  /** The arguments are the tokens joined by single spaces. */
  lemma {:induction false} PersonaOfTokens(tokens: seq<string>, i: int)
    requires |tokens| >= 1 && (forall k :: 0 <= k < |tokens| ==> ' ' !in tokens[k])
    requires FirstPersonaToken(tokens, i)
    ensures GetPersona(Join(tokens, ' ')) == At(Split(tokens[i], '='), 1)
  {
    SplitJoin(tokens, ' ');
    FirstPersonaAt(tokens, i);
  }

  /** Splitting "x=y" on '=' starts with x when x has no '='. */
  lemma {:induction false} FirstPieceOf(x: string, y: string)
    requires '=' !in x
    ensures Split(x + "=" + y, '=')[0] == x
    ensures '=' !in y ==> Split(x + "=" + y, '=') == [x, y]
  {
    assert x + "=" + y == x + ("=" + y);
    SplitPrefix(x, "=" + y, '=');
    assert ("=" + y)[1..] == y;
    assert Split("=" + y, '=') == [""] + Split(y, '=');
    assert x + "" == x;
    if '=' !in y {
      SplitJoin([y], '=');
    }
  }

  /** An option "opt=arg" before "--persona=value" does not hide it. */
  lemma PersonaAfterOption(opt: string, arg: string, value: string)
    requires ' ' !in opt && '=' !in opt && opt != PERSONA_FLAG && ' ' !in arg
    requires ' ' !in value && '=' !in value
    ensures GetPersona(opt + "=" + arg + " " + PERSONA_FLAG + "=" + value) == Some(value)
  {
    var tokens := [opt + "=" + arg, PERSONA_FLAG + "=" + value];
    FirstPieceOf(opt, arg);
    FirstPieceOf(PERSONA_FLAG, value);
    assert FirstPersonaToken(tokens, 1);
    PersonaOfTokens(tokens, 1);
    assert Join(tokens, ' ') == opt + "=" + arg + " " + PERSONA_FLAG + "=" + value;
  }

  /** Only the piece between the first and second '=' is the persona. */
  lemma PersonaStopsAtSecondEquals(value: string, rest: string)
    requires ' ' !in value && '=' !in value && ' ' !in rest
    ensures GetPersona(PERSONA_FLAG + "=" + value + "=" + rest) == Some(value)
  {
    var token := PERSONA_FLAG + "=" + value + "=" + rest;
    assert token == PERSONA_FLAG + "=" + (value + "=" + rest);
    FirstPieceOf(PERSONA_FLAG, value + "=" + rest);
    FirstPieceOf(value, rest);
    assert Split(token, '=') == [PERSONA_FLAG] + Split(value + "=" + rest, '=') by {
      assert token == PERSONA_FLAG + ("=" + (value + "=" + rest));
      SplitPrefix(PERSONA_FLAG, "=" + (value + "=" + rest), '=');
      assert ("=" + (value + "=" + rest))[1..] == value + "=" + rest;
      assert PERSONA_FLAG + "" == PERSONA_FLAG;
    }
    assert FirstPersonaToken([token], 0);
    PersonaOfTokens([token], 0);
  }

  /** A bare "--persona" token ends the search with `undefined`, even when a
      later token carries a value. */
  lemma BareFlagGivesUndefined(rest: string)
    requires ' ' !in rest
    ensures GetPersona(PERSONA_FLAG + " " + rest) == None
  {
    var tokens := [PERSONA_FLAG, rest];
    FlagIsOnePiece();
    assert Join(tokens, ' ') == PERSONA_FLAG + " " + rest by {
      JoinPair(PERSONA_FLAG, rest, ' ');
    }
    assert FirstPersonaToken(tokens, 0);
    assert GetPersona(Join(tokens, ' ')) == At(Split(tokens[0], '='), 1) by {
      PersonaOfTokens(tokens, 0);
    }
  }

  /** "--persona" holds neither a space nor an '='. */
  lemma FlagIsOnePiece()
    ensures ' ' !in PERSONA_FLAG && '=' !in PERSONA_FLAG
    ensures Split(PERSONA_FLAG, '=') == [PERSONA_FLAG]
  {
    WithoutSeparator(PERSONA_FLAG, '=');
  }

  /** A string without the separator splits into itself. */
  lemma WithoutSeparator(x: string, sep: char)
    requires sep !in x
    ensures Split(x, sep) == [x]
  {
    SplitJoin([x], sep);
  }

  lemma JoinPair(a: string, b: string, sep: char)
    ensures Join([a, b], sep) == a + [sep] + b
  {
    assert [a, b][1..] == [b];
  }

  lemma PersonaExampleSecondToken(args: string)
    requires args == "--foo=bar --persona=devsecops"
    ensures GetPersona(args) == Some("devsecops")
  {
    PersonaAfterOption("--foo", "bar", "devsecops");
    SpellSecondToken(args);
  }

  lemma SpellSecondToken(args: string)
    requires args == "--foo=bar --persona=devsecops"
    ensures args == "--foo" + "=" + "bar" + " " + PERSONA_FLAG + "=" + "devsecops"
  {
  }

  lemma PersonaExampleSecondPiece(args: string)
    requires args == "--persona=a=b"
    ensures GetPersona(args) == Some("a")
  {
    PersonaStopsAtSecondEquals("a", "b");
    SpellSecondPiece(args);
  }

  lemma SpellSecondPiece(args: string)
    requires args == "--persona=a=b"
    ensures args == PERSONA_FLAG + "=" + "a" + "=" + "b"
  {
  }

  lemma PersonaExampleBareFlag(args: string)
    requires args == "--persona --persona=devsecops"
    ensures GetPersona(args) == None
  {
    BareFlagGivesUndefined("--persona=devsecops");
    SpellBareFlag(args);
  }

  lemma SpellBareFlag(args: string)
    requires args == "--persona --persona=devsecops"
    ensures args == PERSONA_FLAG + " " + "--persona=devsecops"
  {
  }

  /** The first piece must be exactly "--persona". */
  lemma PersonaExampleNoMatch(args: string)
    requires args == "--personas=devsecops"
    ensures GetPersona(args) == None
  {
    assert Split(args, ' ') == [args] by {
      WithoutSeparator(args, ' ');
    }
    assert !NamesPersona(args) by {
      SpellNoMatch(args);
      FirstPieceOf("--personas", "devsecops");
    }
    assert FirstPersona([args]) == None by {
      FirstPersonaAbsent([args]);
    }
  }

  lemma SpellNoMatch(args: string)
    requires args == "--personas=devsecops"
    ensures args == "--personas" + "=" + "devsecops"
  {
  }

  /** Empty additional arguments name no persona. */
  lemma PersonaExampleEmpty()
    ensures GetPersona("") == None
  {
  }
}
