/** The pure part of the e-mail action: substituting `{key}` placeholders in
    the subject and body, and building the message headers. */
module Email {
  import opened Wrappers
  import opened Strings

  /** A template context whose values are already rendered with `str`, in
      the dict's insertion order. */
  type Rendered = seq<(string, string)>

  /** The placeholder of a key: the key between braces. */
  function Placeholder(key: string): (r: string)
    ensures |r| == |key| + 2 && r[0] == '{' && r[|r| - 1] == '}' && r[1..|r| - 1] == key
  {
    "{" + key + "}"
  }

  /** The template after replacing every placeholder of each entry's key by
      the entry's value, entry by entry in context order. */
  function Substituted(template: string, context: Rendered): string
  {
    if |context| == 0 then template
    else
      var (key, value) := context[|context| - 1];
      ReplaceAll(Substituted(template, context[..|context| - 1]), Placeholder(key), value)
  }

  /** The headers and text of the message `send` builds. */
  datatype Message = Message(from: string, to: string, subject: string, body: string)

  class EmailAction {
    const fromAddress: string
    const toAddresses: seq<string>

    constructor(fromAddress: string, toAddresses: seq<string>)
      ensures this.fromAddress == fromAddress && this.toAddresses == toAddresses
    {
      this.fromAddress := fromAddress;
      this.toAddresses := toAddresses;
    }

    /** The substitution loop of `_substitute_template`, entry by entry. */
    method SubstituteTemplate(template: string, context: Rendered) returns (result: string)
      ensures result == Substituted(template, context)
    {
      result := template;
      for i := 0 to |context|
        invariant result == Substituted(template, context[..i])
      {
        var (key, value) := context[i];
        assert context[..i + 1][..i] == context[..i];
        result := ReplaceAll(result, Placeholder(key), value);
      }
      assert context[..|context|] == context;
    }

    /** The message `send(subject, body, context)` hands to the SMTP server:
        a missing context is an empty one, and the recipients are joined
        with ", " in the `To` header. */
    method Send(subject: string, body: string, context: Option<Rendered>) returns (msg: Message)
      ensures msg.from == fromAddress
      ensures msg.to == Join(toAddresses, ", ")
      ensures msg.subject == Substituted(subject, context.GetOr([]))
      ensures msg.body == Substituted(body, context.GetOr([]))
    {
      var ctx := if context.None? then [] else context.value;
      var s := SubstituteTemplate(subject, ctx);
      var b := SubstituteTemplate(body, ctx);
      msg := Message(fromAddress, Join(toAddresses, ", "), s, b);
    }
  }

  /** A template in which no key of the context has a placeholder comes back
      unchanged; in particular an empty context changes nothing. */
  lemma {:induction false} SubstitutedNoPlaceholders(template: string, context: Rendered)
    requires forall i :: 0 <= i < |context| ==> !Occurs(Placeholder(context[i].0), template)
    ensures Substituted(template, context) == template
  {
    if |context| > 0 {
      var init := context[..|context| - 1];
      SubstitutedNoPlaceholders(template, init);
      ReplaceAllAbsent(template, Placeholder(context[|context| - 1].0), context[|context| - 1].1);
    }
  }

  /** The last entry's step cuts the text at every occurrence of its
      placeholder (the pieces, rejoined with the placeholder, give the text
      back, and none of them holds the placeholder) and puts the value in
      each cut. */
  lemma SubstitutedStep(template: string, context: Rendered, key: string, value: string)
    ensures var before := Substituted(template, context);
      var pieces := Split(before, Placeholder(key));
      && Substituted(template, context + [(key, value)]) == Join(pieces, value)
      && Join(pieces, Placeholder(key)) == before
      && forall k :: 0 <= k < |pieces| ==> !Occurs(Placeholder(key), pieces[k])
  {
    var before := Substituted(template, context);
    assert (context + [(key, value)])[..|context|] == context;
    ReplaceAllIsJoinSplit(before, Placeholder(key), value);
    JoinSplit(before, Placeholder(key));
    SplitPiecesFree(before, Placeholder(key));
  }

  /** Every occurrence of a key's placeholder is replaced, not only the
      first: `"{temp} and {temp}"` with `temp` = `28` becomes `"28 and 28"`. */
  lemma RepeatedPlaceholder(key: string, value: string, sep: string)
    requires '{' !in sep
    ensures Substituted(Placeholder(key) + sep + Placeholder(key), [(key, value)]) == value + sep + value
  {
    var ph := Placeholder(key);
    SubstitutedSingle(ph + sep + ph, key, value);
    assert ph + sep + ph == ph + (sep + (ph + ""));
    ReplaceAllAtPattern(ph, sep + (ph + ""), value);
    ReplaceAllSkip(sep, ph + "", ph, value);
    ReplaceAllAtPattern(ph, "", value);
    assert ReplaceAll("", ph, value) == "";
    assert value + (sep + (value + "")) == value + sep + value;
  }

  lemma SubstitutedSingle(template: string, key: string, value: string)
    ensures Substituted(template, [(key, value)]) == ReplaceAll(template, Placeholder(key), value)
  {
    assert [(key, value)][..0] == [];
  }

  /** Entries are applied in the context's order, each on the result of
      the ones before it: after the first entry's replacement, the rest of the
      context is applied to that result, so placeholders that its value
      brings in are substituted by the later entries. */
  lemma {:induction false} SubstitutedCons(template: string, key: string, value: string, rest: Rendered)
    ensures Substituted(template, [(key, value)] + rest) ==
      Substituted(ReplaceAll(template, Placeholder(key), value), rest)
  {
    var ctx := [(key, value)] + rest;
    if |rest| == 0 {
      assert ctx == [(key, value)];
      SubstitutedSingle(template, key, value);
    } else {
      var init := rest[..|rest| - 1];
      SubstitutedCons(template, key, value, init);
      assert ctx[..|ctx| - 1] == [(key, value)] + init;
      assert ctx[|ctx| - 1] == rest[|rest| - 1];
    }
  }

  /** The `To` header: one recipient is the bare address, and each further
      recipient is appended after a comma and a space. */
  lemma ToHeader(recipients: seq<string>, address: string)
    ensures Join([address], ", ") == address
    ensures |recipients| > 0 ==> Join(recipients + [address], ", ") == Join(recipients, ", ") + ", " + address
  {
    if |recipients| > 0 {
      JoinSnoc(recipients, address, ", ");
    }
  }
}
