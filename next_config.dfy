/** The hand-written `.env.local` reader of the frontend build
    configuration (frontend/next.config.ts): one `KEY=value` per line,
    comments and malformed lines skipped, later lines winning. */
module NextConfig {
  import opened Common
  import opened Strings

  /** The outcome of looking for and reading the file. */
  datatype EnvFile = Missing | Unreadable | Text(content: string)

  /** The entry a single line contributes, if any (see ParseLineMeaning). */
  function ParseLine(line: string): (r: Option<(string, string)>)
  {
    var trimmed := Trim(line);
    if trimmed != [] && !StartsWith(trimmed, "#") && '=' in trimmed then
      var parts := Split(trimmed, '=');
      var key := parts[0];
      if key != [] then Some((Trim(key), Trim(Join(parts[1..], '=')))) else None
    else
      None
  }

  /** A line is trimmed first; an empty line, a comment, a line without
      "=" and a line whose first character is "=" contribute nothing;
      otherwise the key is the trimmed text before the first "=" and the
      value the trimmed text after it, further "=" characters included. */
  lemma ParseLineMeaning(line: string)
    ensures var t := Trim(line);
      ParseLine(line).None? <==> (t == [] || StartsWith(t, "#") || '=' !in t || t[0] == '=')
    ensures ParseLine(line).Some? ==>
      var t := Trim(line);
      '=' in t
      && ParseLine(line).value.0 == Trim(t[..IndexOf(t, '=')])
      && ParseLine(line).value.1 == Trim(t[IndexOf(t, '=') + 1..])
  {
    var t := Trim(line);
    if t != [] && !StartsWith(t, "#") && '=' in t {
      SplitAtFirst(t, '=');
    }
  }

  /** Every key a line yields is non-empty, free of "=" and trimmed. */
  lemma ParseLineKey(line: string)
    ensures ParseLine(line).Some? ==>
      var key := ParseLine(line).value.0;
      key != [] && '=' !in key && Trim(key) == key
  {
    var t := Trim(line);
    if ParseLine(line).Some? {
      ParseLineMeaning(line);
      KeyShape(t, line);
    }
  }

  /** The key of a line that does not begin with "=" keeps its first
      character, contains no "=", and is already trimmed. */
  lemma KeyShape(trimmed: string, line: string)
    requires trimmed == Trim(line) && '=' in trimmed && IndexOf(trimmed, '=') > 0
    ensures var key := Trim(trimmed[..IndexOf(trimmed, '=')]);
      key != [] && '=' !in key && Trim(key) == key
  {
    TrimShape(line, IsSpace);
    var prefix := trimmed[..IndexOf(trimmed, '=')];
    TrimShape(prefix, IsSpace);
    TrimIdempotent(prefix, IsSpace);
    var lo := |prefix| - |TrimStartBy(prefix, IsSpace)|;
    assert !IsSpace(prefix[0]);
    assert Trim(prefix) == prefix[lo..lo + |Trim(prefix)|];
  }

  type Entry = Option<(string, string)>

  /** The entries of the lines, in order. */
  function Entries(lines: seq<string>): (es: seq<Entry>)
    ensures |es| == |lines| && forall i :: 0 <= i < |lines| ==> es[i] == ParseLine(lines[i])
  {
    seq(|lines|, i requires 0 <= i < |lines| => ParseLine(lines[i]))
  }

  /** The one key a plain object does not store: assigning a string to
      `__proto__` goes to the prototype setter, which ignores it. */
  const ProtoKey: string := "__proto__"

  /** `env[key] = value` on a plain object: the key is set, or overwritten,
      except `__proto__`, which leaves the object as it was. */
  function Assign(env: map<string, string>, key: string, value: string): (r: map<string, string>)
    ensures key != ProtoKey ==> key in r && r[key] == value
    ensures forall k :: k != key ==> (k in r <==> k in env) && (k in r ==> r[k] == env[k])
    ensures ProtoKey in r <==> ProtoKey in env
  {
    if key == ProtoKey then env else env[key := value]
  }

  /** The record built from entries inserted in order, so that a later
      entry with the same key overwrites an earlier one. */
  function Insert(es: seq<Entry>): map<string, string>
  {
    if es == [] then map[]
    else
      var env := Insert(es[..|es| - 1]);
      match es[|es| - 1]
      case None => env
      case Some((key, value)) => Assign(env, key, value)
  }

  /** Inserting one more entry updates the record by that entry alone. */
  lemma InsertStep(es: seq<Entry>, i: nat)
    requires i < |es|
    ensures Insert(es[..i + 1]) ==
      if es[i].Some? then Assign(Insert(es[..i]), es[i].value.0, es[i].value.1) else Insert(es[..i])
  {
    assert es[..i + 1][..i] == es[..i];
  }

  /** The record `loadEnv` builds from the lines of the file. */
  function EnvOf(lines: seq<string>): map<string, string>
  {
    Insert(Entries(lines))
  }

  /** A key is present exactly when some entry defines it and it is not
      `__proto__`. */
  lemma {:induction false} InsertKeyDefined(es: seq<Entry>, k: string)
    ensures k in Insert(es) <==>
      k != ProtoKey && exists j :: 0 <= j < |es| && es[j].Some? && es[j].value.0 == k
  {
    if es != [] {
      var init := es[..|es| - 1];
      InsertKeyDefined(init, k);
      if k in Insert(init) {
        var j :| 0 <= j < |init| && init[j].Some? && init[j].value.0 == k;
        assert es[j] == init[j];
      }
      if exists j :: 0 <= j < |es| && es[j].Some? && es[j].value.0 == k {
        var j :| 0 <= j < |es| && es[j].Some? && es[j].value.0 == k;
        if j < |init| {
          assert init[j] == es[j];
        }
      }
    }
  }

  /** The value of a key other than `__proto__` is the one of the last
      entry that defines it. */
  lemma {:induction false} InsertLastWins(es: seq<Entry>, j: nat, k: string, v: string)
    requires j < |es| && es[j] == Some((k, v))
    requires forall i :: j < i < |es| && es[i].Some? ==> es[i].value.0 != k
    ensures k != ProtoKey ==> k in Insert(es) && Insert(es)[k] == v
    ensures k == ProtoKey ==> k !in Insert(es)
    decreases |es|
  {
    if k == ProtoKey {
      InsertKeyDefined(es, k);
      return;
    }
    var init := es[..|es| - 1];
    if j < |es| - 1 {
      assert init[j] == es[j];
      forall i | j < i < |init| && init[i].Some? ensures init[i].value.0 != k {
        assert init[i] == es[i];
      }
      InsertLastWins(init, j, k, v);
    }
  }

  /** Every key of the record comes from some entry. */
  lemma {:induction false} InsertKeysFromEntries(es: seq<Entry>)
    ensures forall k :: k in Insert(es) ==> exists j :: 0 <= j < |es| && es[j].Some? && es[j].value.0 == k
  {
    forall k | k in Insert(es) ensures exists j :: 0 <= j < |es| && es[j].Some? && es[j].value.0 == k {
      InsertKeyDefined(es, k);
    }
  }

  /** Every key in the record is non-empty, contains no "=" and carries no
      surrounding whitespace. */
  lemma EnvKeysWellFormed(lines: seq<string>)
    ensures forall k :: k in EnvOf(lines) ==> k != [] && '=' !in k && Trim(k) == k
  {
    var es := Entries(lines);
    InsertKeysFromEntries(es);
    forall k | k in EnvOf(lines) ensures k != [] && '=' !in k && Trim(k) == k {
      var j :| 0 <= j < |es| && es[j].Some? && es[j].value.0 == k;
      ParseLineKey(lines[j]);
    }
  }

  /** A key that some line defines is present, with the value on the last
      line that defines it, unless it is `__proto__`, which never is. */
  lemma EnvLookup(lines: seq<string>, j: nat, k: string)
    requires j < |lines| && ParseLine(lines[j]).Some? && ParseLine(lines[j]).value.0 == k
    requires forall i :: j < i < |lines| && ParseLine(lines[i]).Some? ==> ParseLine(lines[i]).value.0 != k
    ensures k != ProtoKey ==> k in EnvOf(lines) && EnvOf(lines)[k] == ParseLine(lines[j]).value.1
    ensures k == ProtoKey ==> k !in EnvOf(lines)
  {
    InsertLastWins(Entries(lines), j, k, ParseLine(lines[j]).value.1);
  }

  /** Whatever the file says, the record has no `__proto__` key. */
  lemma ProtoKeyIgnored(lines: seq<string>)
    ensures ProtoKey !in EnvOf(lines)
  {
    InsertKeyDefined(Entries(lines), ProtoKey);
  }

  /** A key that no line defines is absent. */
  lemma EnvUndefinedAbsent(lines: seq<string>, k: string)
    requires forall i :: 0 <= i < |lines| && ParseLine(lines[i]).Some? ==> ParseLine(lines[i]).value.0 != k
    ensures k !in EnvOf(lines)
  {
    InsertKeyDefined(Entries(lines), k);
  }

  /** `loadEnv`: a missing or unreadable file gives the empty record;
      otherwise the content is split on "\n" and the lines are inserted one
      by one into the record. */
  method LoadEnv(file: EnvFile) returns (env: map<string, string>)
    ensures file.Text? ==> env == EnvOf(Split(file.content, '\n'))
    ensures !file.Text? ==> env == map[]
  {
    env := map[];
    if file.Text? {
      var lines := Split(file.content, '\n');
      ghost var es := Entries(lines);
      var i := 0;
      while i < |lines|
        invariant 0 <= i <= |lines|
        invariant env == Insert(es[..i])
      {
        var entry := ParseLine(lines[i]);
        assert entry == es[i];
        InsertStep(es, i);
        if entry.Some? {
          env := Assign(env, entry.value.0, entry.value.1);
        }
        i := i + 1;
      }
      assert es[..|lines|] == es;
    }
  }
}
