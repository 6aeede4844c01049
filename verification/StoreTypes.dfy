/** The records the store holds, with the fields the manager works on. JSON encoding is taken
    to be the identity, and nil pointers and maps are None. */
module StoreTypes {
  import opened Strings

  datatype InstanceType = NoType | ControllerType | ReplicaType

  datatype Instance = Instance(
    id: string, typ: InstanceType, name: string, hostID: string, address: string, running: bool, volumeName: string)

  datatype Replica = Replica(inst: Instance, mode: string, badTimestamp: string)

  datatype Volume = Volume(
    name: string, size: int, numberOfReplicas: int, engineImage: string, created: string,
    controller: Option<Instance>, replicas: Option<map<string, Replica>>)

  /** A nil map of replicas is an empty one. */
  function Replicas(volume: Volume): map<string, Replica> {
    if volume.replicas.None? then map[] else volume.replicas.value
  }

  datatype Host = Host(uuid: string, name: string, address: string)

  datatype Settings = Settings(backupTarget: string, engineImage: string)

  datatype Value =
    | VolumeValue(volume: Volume)
    | ControllerValue(controller: Instance)
    | ReplicaValue(replica: Replica)
    | HostValue(host: Host)
    | SettingsValue(settings: Settings)
}
