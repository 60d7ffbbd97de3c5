/** The message bodies and publications that cross the queue boundary.

 A body is a Python mapping; the model keeps only the value shapes that
 the worker and the trail actually publish: strings, event kinds, nested
 mappings and opaque collaborator values (a captured stack, a mock).
 */
module Messages {

  /** The kinds of trace event; only `exception` is used by the modelled code,
      every other member of the enumeration is carried by its name. */
  datatype EventType = ExceptionEvent | Named(name: string)

  datatype Value =
    | Str(s: string)
    | Kind(kind: EventType)
    | Dict(entries: map<string, Value>)
    | Opaque(token: nat)

  /** One `queue.put(body, routing_key, exchange=...)` call. For the default
      exchange `""` the routing key is the name of the destination queue. */
  datatype Put = Put(body: Value, routingKey: string, exchange: string)

}
