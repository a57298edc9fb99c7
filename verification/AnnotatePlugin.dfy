/**
 k8s.annotate (plugins/k8s-annotate/plugin.go): a plugin that meets the executor's undo law only
 when the annotation it sets was not there before.
 */
module AnnotatePlugin {
  import opened Common
  import opened Executor

  const PLUGIN_NAME := "k8s.annotate"

  type Annotations = map<string, string>

  /** The objects of the cluster. */
  type Objects = map<Target, Annotations>

  /** The decoded parameters; overwrite is true when they do not mention it. */
  datatype Params = Params(key: string, value: string, overwrite: bool)

  /** The Details of a success. */
  datatype Annotated = Annotated(key: string, value: string)

  /** The decoding of parameters, the rendering of the value's template, and whether the API server
      refuses the update. */
  datatype Environment = Environment(
    decode: string -> Option<Params>, render: (string, Input) -> Option<string>, refuses: Input -> bool)

  function Failure(s: Objects, why: string): RawResult<Objects, Annotated> {
    RawResult(s, PLUGIN_NAME, Failed, "", None, Some(why))
  }

  function Execute(env: Environment, s: Objects, inp: Input): RawResult<Objects, Annotated> {
    var decoded := env.decode(inp.params);
    if decoded.None? then Failure(s, "params")
    else if inp.target !in s then Failure(s, "target")
    else
      var p := decoded.value;
      if p.key in s[inp.target] && !p.overwrite then RawResult(s, PLUGIN_NAME, Skipped, "", None, None)
      else
        var value := env.render(p.value, inp);
        if value.None? then Failure(s, "template")
        else if env.refuses(inp) then Failure(s, "update")
        else
          RawResult(s[inp.target := s[inp.target][p.key := value.value]], PLUGIN_NAME, Succeeded, "",
                    Some(Annotated(p.key, value.value)), None)
  }

  /** An execution succeeds if and only if the object is there, its parameters and template can be read, the
      update is not refused, and the key is new or may be overwritten; then this one annotation is
      set, and everything else is as it was. An existing key that may not be overwritten is
      skipped. */
  lemma AnnotatesExactly(env: Environment, s: Objects, inp: Input)
    ensures var raw, decoded := Execute(env, s, inp), env.decode(inp.params);
            && (raw.status == Succeeded <==>
                  && decoded.Some? && inp.target in s && (decoded.value.key !in s[inp.target] || decoded.value.overwrite)
                  && env.render(decoded.value.value, inp).Some? && !env.refuses(inp))
            && (raw.status == Skipped <==> decoded.Some? && inp.target in s && decoded.value.key in s[inp.target] && !decoded.value.overwrite)
            && (raw.status == Failed <==> raw.err.Some?)
            && (raw.status != Succeeded ==> raw.state == s)
            && (raw.status == Succeeded ==>
                  && raw.state.Keys == s.Keys && (forall other :: other in s && other != inp.target ==> raw.state[other] == s[other])
                  && raw.state[inp.target] == s[inp.target][decoded.value.key := env.render(decoded.value.value, inp).value])
  {
  }

  function Reverse(s: Objects, prev: Result<Annotated>): Reversal<Objects> {
    if prev.details.payload.None? || prev.details.payload.value.key == "" then Reversal(s, Some("key"))
    else
      var key := prev.details.payload.value.key;
      if prev.target !in s || key !in s[prev.target] then Reversal(s, None)
      else Reversal(s[prev.target := s[prev.target] - {key}], None)
  }

  /** Reverse fails if and only if the result names no key; an object or a key that is gone needs nothing;
      otherwise this one annotation is removed. */
  lemma RemovesExactly(s: Objects, prev: Result<Annotated>)
    ensures var v, payload := Reverse(s, prev), prev.details.payload;
            && (v.err.Some? <==> payload.None? || payload.value.key == "")
            && (v.err.Some? ==> v.state == s)
            && v.state.Keys == s.Keys && (forall other :: other in s && other != prev.target ==> v.state[other] == s[other])
            && (v.err.None? && prev.target in s ==> v.state[prev.target] == s[prev.target] - {payload.value.key})
  {
    if prev.target in s && prev.details.payload.Some? && prev.details.payload.value.key !in s[prev.target] {
      assert s[prev.target] - {prev.details.payload.value.key} == s[prev.target];
    }
  }

  /** A failed or skipped execution changes nothing. A successful one is undone by Reverse exactly when
      its key, which validation requires to be non-empty, was absent before; otherwise the previous
      value is gone, because Reverse always removes the key. */
  lemma UndoneExactlyWhenKeyWasAbsent(env: Environment, s: Objects, inp: Input)
    ensures var raw := Execute(env, s, inp);
            var r := Normalise(PLUGIN_NAME, inp.target, raw);
            && (r.status != Succeeded ==> raw.state == s)
            && (r.status == Succeeded ==>
                  var key := env.decode(inp.params).value.key;
                  && (Reverse(raw.state, r) == Reversal(s, None) <==> key != "" && key !in s[inp.target])
                  && (key != "" ==> Reverse(raw.state, r) == Reversal(s[inp.target := s[inp.target] - {key}], None)))
  {
    var raw := Execute(env, s, inp);
    var r := Normalise(PLUGIN_NAME, inp.target, raw);
    if r.status == Succeeded {
      var key := env.decode(inp.params).value.key;
      var was := s[inp.target];
      var value := env.render(env.decode(inp.params).value.value, inp).value;
      if key != "" {
        assert was[key := value] - {key} == was - {key};
        var undone := Reverse(raw.state, r).state;
        assert undone == s[inp.target := was - {key}];
        if key in was {
          assert key in s[inp.target] && key !in undone[inp.target];
        } else {
          assert was - {key} == was;
          assert undone == s;
        }
      }
    }
  }
}
