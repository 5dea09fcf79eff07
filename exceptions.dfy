/**
 * The exceptions notebook: an error raised deep in a chain of calls
 * unwinds it until the nearest `try` whose `except` clause names its kind;
 * reading credentials with a fallback for a missing file or missing keys;
 * and an exception class that carries a category.
 */
module Exceptions {
  import opened Builtins

  /** The built-in error classes the notebook raises or catches. */
  datatype ErrorKind = ZeroDivisionError | ArithmeticError | SyntaxError | TypeError | FileNotFoundError | KeyError

  /** `except handler:` catches `raised` when `raised` is that class or one of
      its subclasses; of these, only ZeroDivisionError has a parent here. */
  predicate Catches(handler: ErrorKind, raised: ErrorKind)
  {
    raised == handler || (raised == ZeroDivisionError && handler == ArithmeticError)
  }

  /** A function whose body is `try: print(name + "Before"); <inner call>;
      print(name + "After") except handles: print(name + "Except (💣)")`. */
  datatype Level = Level(name: string, handles: ErrorKind)

  function Before(l: Level): string { l.name + "Before" }
  function After(l: Level): string { l.name + "After" }
  function Except(l: Level): string { l.name + "Except (\U{1F4A3})" }

  /** What a call prints, and the error that escapes it, if any. */
  datatype Outcome = Outcome(trace: seq<string>, escaped: Option<ErrorKind>)

  /** Running nested levels, outermost first, around an innermost call that
      raises `err` (or returns normally when `err` is `None`). */
  function Run(levels: seq<Level>, err: Option<ErrorKind>): Outcome
  {
    if levels == [] then Outcome([], err)
    else
      var inner := Run(levels[1..], err);
      var start := [Before(levels[0])] + inner.trace;
      match inner.escaped
      case None => Outcome(start + [After(levels[0])], None)
      case Some(e) =>
        if Catches(levels[0].handles, e) then Outcome(start + [Except(levels[0])], None)
        else Outcome(start, Some(e))
  }

  /** The "Before" lines of the levels, outermost first. */
  function Befores(levels: seq<Level>): (r: seq<string>)
    ensures |r| == |levels|
  {
    seq(|levels|, k requires 0 <= k < |levels| => Before(levels[k]))
  }

  /** The "After" lines of the levels, innermost first. */
  function Afters(levels: seq<Level>): (r: seq<string>)
    ensures |r| == |levels|
  {
    seq(|levels|, k requires 0 <= k < |levels| => After(levels[|levels| - 1 - k]))
  }

  lemma BeforesCons(levels: seq<Level>)
    requires levels != []
    ensures Befores(levels) == [Before(levels[0])] + Befores(levels[1..])
  {
  }

  lemma AftersCons(levels: seq<Level>)
    requires levels != []
    ensures Afters(levels) == Afters(levels[1..]) + [After(levels[0])]
  {
  }

  /** With no error every level prints its "Before" line on the way in and
      its "After" line on the way out. */
  lemma {:induction false} RunNormally(levels: seq<Level>)
    ensures Run(levels, None) == Outcome(Befores(levels) + Afters(levels), None)
  {
    if levels != [] {
      RunNormally(levels[1..]);
      BeforesCons(levels);
      AftersCons(levels);
    }
  }

  /** An error no level catches escapes them all, and only the "Before"
      lines are printed. */
  lemma {:induction false} RunUncaught(levels: seq<Level>, e: ErrorKind)
    requires forall k :: 0 <= k < |levels| ==> !Catches(levels[k].handles, e)
    ensures Run(levels, Some(e)) == Outcome(Befores(levels), Some(e))
  {
    if levels != [] {
      RunUncaught(levels[1..], e);
      BeforesCons(levels);
    }
  }

  /** The nearest enclosing level `i` that catches the error prints its
      "Except" line; the levels inside it print no "After" line, those
      outside it print theirs, and nothing escapes. */
  lemma {:induction false} RunCaught(levels: seq<Level>, e: ErrorKind, i: int)
    requires 0 <= i < |levels| && Catches(levels[i].handles, e)
    requires forall k :: i < k < |levels| ==> !Catches(levels[k].handles, e)
    ensures Run(levels, Some(e)) == Outcome(Befores(levels) + [Except(levels[i])] + Afters(levels[..i]), None)
  {
    assert Afters(levels[..0]) == [];
    if i == 0 {
      RunCaughtOutermost(levels, e);
    } else {
      BeforesCons(levels);
      RunCaught(levels[1..], e, i - 1);
      assert levels[1..][..i - 1] == levels[..i][1..];
      AftersCons(levels[..i]);
    }
  }

  /** The outermost level catches what every inner level lets through. */
  lemma RunCaughtOutermost(levels: seq<Level>, e: ErrorKind)
    requires levels != [] && Catches(levels[0].handles, e)
    requires forall k :: 0 < k < |levels| ==> !Catches(levels[k].handles, e)
    ensures Run(levels, Some(e)) == Outcome(Befores(levels) + [Except(levels[0])], None)
  {
    var rest := levels[1..];
    assert forall k :: 0 <= k < |rest| ==> rest[k] == levels[k + 1];
    RunUncaught(rest, e);
    BeforesCons(levels);
  }

  /** `f4(x)`: which error it raises. */
  function F4(x: int): (r: Option<ErrorKind>)
    ensures r.None? <==> x < 1 || x > 3
    ensures r == Some(ArithmeticError) <==> x == 1
    ensures r == Some(SyntaxError) <==> x == 2
    ensures r == Some(TypeError) <==> x == 3
  {
    if x == 0 then None
    else if x == 1 then Some(ArithmeticError)
    else if x == 2 then Some(SyntaxError)
    else if x == 3 then Some(TypeError)
    else None
  }

  const L1 := Level("F1", TypeError)
  const L2 := Level("F2", SyntaxError)
  const L3 := Level("F3", ArithmeticError)

  /** The stack `f1` → `f2` → `f3` around `f4`, outermost first. */
  const Stack := [L1, L2, L3]

  /** `f3(x)`, printing as it goes. */
  method F3(x: int) returns (trace: seq<string>, escaped: Option<ErrorKind>)
    ensures Outcome(trace, escaped) == Run(Stack[2..], F4(x))
  {
    assert Before(L3) == "F3Before" && After(L3) == "F3After" && Except(L3) == "F3Except (\U{1F4A3})";
    trace := ["F3Before"];
    escaped := F4(x);
    if escaped.None? {
      trace := trace + ["F3After"];
    } else if Catches(ArithmeticError, escaped.value) {
      trace := trace + ["F3Except (\U{1F4A3})"];
      escaped := None;
    }
    assert Stack[2..] == [L3] && Stack[2..][1..] == [];
  }

  /** `f2(x)`, printing as it goes and calling `f3`. */
  method F2(x: int) returns (trace: seq<string>, escaped: Option<ErrorKind>)
    ensures Outcome(trace, escaped) == Run(Stack[1..], F4(x))
  {
    assert Before(L2) == "F2Before" && After(L2) == "F2After" && Except(L2) == "F2Except (\U{1F4A3})";
    trace := ["F2Before"];
    var inner;
    inner, escaped := F3(x);
    trace := trace + inner;
    if escaped.None? {
      trace := trace + ["F2After"];
    } else if Catches(SyntaxError, escaped.value) {
      trace := trace + ["F2Except (\U{1F4A3})"];
      escaped := None;
    }
    assert Stack[1..] == [L2, L3] && Stack[1..][1..] == Stack[2..];
  }

  /** `f1(x)`, printing as it goes and calling `f2`. */
  method F1(x: int) returns (trace: seq<string>, escaped: Option<ErrorKind>)
    ensures Outcome(trace, escaped) == Run(Stack, F4(x))
  {
    assert Before(L1) == "F1Before" && After(L1) == "F1After" && Except(L1) == "F1Except (\U{1F4A3})";
    assert Stack[0] == L1 && Stack[1..] == [L2, L3];
    trace := ["F1Before"];
    var inner;
    inner, escaped := F2(x);
    trace := trace + inner;
    if escaped.None? {
      trace := trace + ["F1After"];
    } else if Catches(TypeError, escaped.value) {
      trace := trace + ["F1Except (\U{1F4A3})"];
      escaped := None;
    }
  }

  lemma StackLines()
    ensures Befores(Stack) == ["F1Before", "F2Before", "F3Before"]
    ensures Afters(Stack) == ["F3After", "F2After", "F1After"]
    ensures Afters(Stack[..2]) == ["F2After", "F1After"]
    ensures Afters(Stack[..1]) == ["F1After"]
    ensures Except(L3) == "F3Except (\U{1F4A3})" && Except(L2) == "F2Except (\U{1F4A3})"
    ensures Except(L1) == "F1Except (\U{1F4A3})"
  {
    assert Before(L1) == "F1Before" && Before(L2) == "F2Before" && Before(L3) == "F3Before";
    assert After(L1) == "F1After" && After(L2) == "F2After" && After(L3) == "F3After";
    var b := Befores(Stack);
    assert b[0] == Before(L1) && b[1] == Before(L2) && b[2] == Before(L3);
    var a := Afters(Stack);
    assert a[0] == After(L3) && a[1] == After(L2) && a[2] == After(L1);
    assert Stack[..2] == [L1, L2] && Stack[..1] == [L1];
    var a2 := Afters(Stack[..2]);
    assert a2[0] == After(L2) && a2[1] == After(L1);
    assert Afters(Stack[..1])[0] == After(L1);
  }

  /** `f1(0)`: every level runs to its end. */
  lemma TraceOfZero()
    ensures Run(Stack, F4(0)) == Outcome(["F1Before", "F2Before", "F3Before", "F3After", "F2After", "F1After"], None)
  {
    RunNormally(Stack);
    StackLines();
  }

  /** `f1(1)`: `f3` catches the ArithmeticError, so it prints no "After" line
      but `f2` and `f1` do. */
  lemma TraceOfOne()
    ensures Run(Stack, F4(1)) == Outcome(["F1Before", "F2Before", "F3Before", "F3Except (\U{1F4A3})", "F2After", "F1After"], None)
  {
    RunCaught(Stack, ArithmeticError, 2);
    StackLines();
  }

  /** `f1(2)`: the SyntaxError passes `f3` and is caught by `f2`; only `f1`
      prints its "After" line. */
  lemma TraceOfTwo()
    ensures Run(Stack, F4(2)) == Outcome(["F1Before", "F2Before", "F3Before", "F2Except (\U{1F4A3})", "F1After"], None)
  {
    RunCaught(Stack, SyntaxError, 1);
    StackLines();
  }

  /** `f1(3)`: the TypeError reaches `f1`; no "After" line is printed. */
  lemma TraceOfThree()
    ensures Run(Stack, F4(3)) == Outcome(["F1Before", "F2Before", "F3Before", "F1Except (\U{1F4A3})"], None)
  {
    RunCaught(Stack, TypeError, 0);
    StackLines();
    assert Stack[..0] == [];
  }

  /** A ZeroDivisionError raised in `f4` would be caught by `f3`, whose
      handler names its parent class. */
  lemma ZeroDivisionCaughtByF3()
    ensures Run(Stack, Some(ZeroDivisionError)).escaped == None
    ensures Except(L3) in Run(Stack, Some(ZeroDivisionError)).trace
  {
    RunCaught(Stack, ZeroDivisionError, 2);
  }

  /** A configuration file's top-level mapping. */
  type Config = map<string, string>

  /** The user, the password and what was printed. */
  datatype Credentials = Credentials(user: string, password: Option<string>, printed: seq<string>)

  /** The first `read_credentials(source)`, over a file system that maps
      each existing file name to its parsed contents: a missing file or a
      missing key falls back to the anonymous user with no password. */
  function ReadCredentials(files: map<string, Config>, source: string): (r: Credentials)
    ensures r.password.Some? <==>
      source in files && "userid" in files[source] && "password" in files[source]
    ensures r.password.Some? ==>
      r.user == files[source]["userid"] && r.password.value == files[source]["password"] && r.printed == []
    ensures r.password.None? ==> r.user == "anonymous"
    ensures source !in files ==> r.printed == ["Password file missing"]
    ensures source in files && r.password.None? ==> r.printed == ["Expected keys not found in file"]
  {
    if source !in files then Credentials("anonymous", None, ["Password file missing"])
    else
      var config := files[source];
      if "userid" !in config || "password" !in config then
        Credentials("anonymous", None, ["Expected keys not found in file"])
      else Credentials(config["userid"], Some(config["password"]), [])
  }

  /** The two files the notebook writes; `datasource.yaml` does not exist. */
  const Files: map<string, Config> := map[
    "datasource2.yaml" := map["userid" := "eidle", "password" := "secret"],
    "datasource3.yaml" := map["user" := "eidle", "password" := "secret"]]

  /** The three calls: a complete file, a missing one, and one whose user key
      is misnamed. */
  lemma NotebookCredentials()
    ensures ReadCredentials(Files, "datasource2.yaml") == Credentials("eidle", Some("secret"), [])
    ensures ReadCredentials(Files, "datasource.yaml") == Credentials("anonymous", None, ["Password file missing"])
    ensures ReadCredentials(Files, "datasource3.yaml") == Credentials("anonymous", None, ["Expected keys not found in file"])
  {
    assert "datasource.yaml" != "datasource2.yaml" && "datasource.yaml" != "datasource3.yaml";
    assert "userid" != "user" && "userid" != "password";
  }

  /** `MyCustomErrorType(category=None)`. */
  datatype MyCustomError = MyCustomError(category: Option<int>)

  const ErrorPrefix := "Error, category "

  /** `MyCustomErrorType.__str__`. */
  function ErrorText(err: MyCustomError): string
  {
    ErrorPrefix + (if err.category.None? then "None" else IntToString(err.category.value))
  }

  /** The category can be read back from the message. */
  lemma ErrorTextCategory(err: MyCustomError)
    ensures |ErrorText(err)| > |ErrorPrefix| && ErrorText(err)[..|ErrorPrefix|] == ErrorPrefix
    ensures ParseInt(ErrorText(err)[|ErrorPrefix|..]) == err.category
  {
    var rest := ErrorText(err)[|ErrorPrefix|..];
    if err.category.Some? {
      assert rest == IntToString(err.category.value);
      IntToStringRoundTrip(err.category.value);
    } else {
      assert rest == "None";
      assert !IsDigits(rest) by {
        assert rest[0] == 'N';
      }
    }
  }

  /** `str(MyCustomErrorType(404))`. */
  lemma Error404()
    ensures ErrorText(MyCustomError(Some(404))) == "Error, category 404"
  {
    assert IntToString(404) == "404";
  }
}
