/** Small types shared by the other modules. */
module Types {

  datatype Option<+T> = None | Some(value: T)

  datatype TopicPartition = TopicPartition(topic: string, partition: int)

  // What a map holds for a key, or a default.
  function GetOr<K, V>(m: map<K, V>, key: K, default: V): V {
    if key in m then m[key] else default
  }
}
