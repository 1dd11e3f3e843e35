/** How a queue is deleted: the guards deleteIfEmpty and deleteIfUnused are left to the broker as
    options, except for quorum queues, whose load the operator inspects first. */
module QueueDeletion {
  import opened Types

  datatype Load = Load(messages: nat, consumers: nat)

  type QueueId = (string, string)

  datatype DeleteOptions = DeleteOptions(ifEmpty: bool, ifUnused: bool)

  /** GenerateQueueDeleteOptions. */
  function OptionsOf(q: QueueSpec): DeleteOptions {
    DeleteOptions(q.kind != "quorum" && q.deleteIfEmpty, q.kind != "quorum" && q.deleteIfUnused)
  }

  datatype Response = Success | NotFound | PreconditionFailed | Failure

  /** Whether a broker call works, fails, or works but looks failed. */
  datatype Call = Works | Fails | WorksUnseen

  class QueueReconciler {
    var queues: map<QueueId, Load>

    /** GetQueue: an error when the queue is not there. */
    method GetQueue(id: QueueId, fails: bool) returns (load: Option<Load>)
      ensures load == if fails || id !in queues then None else Some(queues[id])
    {
      load := if fails || id !in queues then None else Some(queues[id]);
    }

    /** DeleteQueue: the broker honours the options. */
    method DeleteQueue(id: QueueId, options: DeleteOptions, call: Call) returns (r: Response)
      modifies this
      ensures var blocked := id in old(queues) &&
                             ((options.ifEmpty && old(queues)[id].messages > 0) || (options.ifUnused && old(queues)[id].consumers > 0));
              && queues == (if call.Fails? || blocked then old(queues) else old(queues) - {id})
              && r == if !call.Works? then Failure
                      else if id !in old(queues) then NotFound
                      else if blocked then PreconditionFailed else Success
    {
      if call.Fails? { return Failure; }
      if id !in queues { return if call.Works? then NotFound else Failure; }
      if (options.ifEmpty && queues[id].messages > 0) || (options.ifUnused && queues[id].consumers > 0) {
        return if call.Works? then PreconditionFailed else Failure;
      }
      queues := queues - {id};
      r := if call.Works? then Success else Failure;
    }

    /** DeleteFunc. A guarded or retained queue is never removed, whatever its type, nothing else is
        ever touched, and success means the queue is gone unless it is retained. Undisturbed, it
        removes the queue exactly when no guard holds, and succeeds on a queue that is already
        gone exactly when that is not a quorum queue with a guard. */
    method DeleteFunc(q: QueueSpec, unreadable: bool, call: Call) returns (ok: bool)
      modifies this
      ensures var id := (q.vhost, q.name);
              var guarded := id in old(queues) && ((q.deleteIfEmpty && old(queues)[id].messages > 0)
                                                   || (q.deleteIfUnused && old(queues)[id].consumers > 0));
              && queues - {id} == old(queues) - {id}
              && (id in queues ==> id in old(queues) && queues[id] == old(queues)[id])
              && (id in old(queues) && (guarded || q.deletionPolicy == "retain") ==>
                    id in queues && (ok <==> q.deletionPolicy == "retain"))
              && (ok && q.deletionPolicy != "retain" ==> id !in queues)
              && (!unreadable && call.Works? && q.deletionPolicy != "retain" ==>
                    (ok <==> if id in old(queues) then !guarded
                             else !(q.kind == "quorum" && (q.deleteIfEmpty || q.deleteIfUnused))))
    {
      if q.deletionPolicy == "retain" {
        return true;
      }
      var id := (q.vhost, q.name);
      var options := OptionsOf(q);
      if q.kind == "quorum" && (q.deleteIfEmpty || q.deleteIfUnused) {
        var load := GetQueue(id, unreadable);
        if load.None? { return false; }
        if load.value.messages > 0 && q.deleteIfEmpty { return false; }
        if load.value.consumers > 0 && q.deleteIfUnused { return false; }
      }
      var r := DeleteQueue(id, options, call);
      ok := r.Success? || r.NotFound?;
    }
  }
}
