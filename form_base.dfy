/** The context building of the form viewsets (`project/sua/views/form/base.py`):
    `BaseViewSet.get_context`, and the GET branch of `change` with its
    `get_extra_data` hook. A viewset's handlers are the function `handler`
    from a handler name to what that handler returns for the request. */
module FormBase {
  import opened Common

  /** The extra context, `{}` when the keyword argument is omitted. */
  function ExtraOrEmpty<V>(extraContext: Option<map<string, V>>): map<string, V>
  {
    if extraContext.Some? then extraContext.value else map[]
  }

  /** The context of a request: every component's handler result, with the
      extra context laid over it. */
  function ContextSpec<V>(components: map<string, string>, handler: string -> V,
                          extra: map<string, V>): (ctx: map<string, V>)
    ensures ctx.Keys == components.Keys + extra.Keys
    ensures forall k :: k in extra ==> ctx[k] == extra[k]
    ensures forall k :: k in components && k !in extra ==> ctx[k] == handler(components[k])
  {
    (map k | k in components :: handler(components[k])) + extra
  }

  /** Without an extra context the result is exactly the components' handler results. */
  lemma ContextWithoutExtra<V>(components: map<string, string>, handler: string -> V)
    ensures ContextSpec(components, handler, ExtraOrEmpty<V>(None)).Keys == components.Keys
    ensures forall k :: k in components ==>
      ContextSpec(components, handler, ExtraOrEmpty<V>(None))[k] == handler(components[k])
  {
  }

  /** `get_context`: one entry per component, set in a loop that asserts the key
      is new, then `update` with the extra context. */
  method GetContext<V>(components: map<string, string>, handler: string -> V,
                       extraContext: Option<map<string, V>>) returns (context: map<string, V>)
    ensures context == ContextSpec(components, handler, ExtraOrEmpty(extraContext))
  {
    var extra := ExtraOrEmpty(extraContext);
    context := map[];
    var pending := components.Keys;
    while pending != {}
      invariant pending <= components.Keys
      invariant context.Keys == components.Keys - pending
      invariant forall k :: k in context ==> context[k] == handler(components[k])
      decreases pending
    {
      var component :| component in pending;
      assert component !in context;
      context := context[component := handler(components[component])];
      pending := pending - {component};
    }
    context := context + extra;
  }

  /** A value of the `change` response: the serializer or Python's `None`. */
  datatype ResponseValue<S> = SerializerValue(serializer: S) | NoneValue

  const SerializerKey: string := "serializer"
  const ExtraDataKey: string := "extra_data"

  /** `get_extra_data`, which a viewset may override; the base returns `None`. */
  function GetExtraData<S>(serializer: S): ResponseValue<S>
  {
    NoneValue
  }

  /** The response of `change` on GET. It returns before the `get_context` call
      that follows it, so no component appears in it. */
  function ChangeGet<S>(serializer: S): (r: map<string, ResponseValue<S>>)
    ensures r.Keys == {SerializerKey, ExtraDataKey}
    ensures r[SerializerKey] == SerializerValue(serializer)
    ensures r[ExtraDataKey] == NoneValue
  {
    map[SerializerKey := SerializerValue(serializer), ExtraDataKey := GetExtraData(serializer)]
  }

  /** Every component other than the two response keys, such as `nav`, would be
      in the context `get_context` builds and is missing from what `change`
      returns on GET. */
  lemma ChangeGetSkipsComponents<S>(components: map<string, string>, handler: string -> ResponseValue<S>,
                                    serializer: S, k: string)
    requires k in components && k != SerializerKey && k != ExtraDataKey
    ensures k in ContextSpec(components, handler, ChangeGet(serializer))
    ensures k !in ChangeGet(serializer)
  {
  }
}
