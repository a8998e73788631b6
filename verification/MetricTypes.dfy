/** The records that travel through the pipelines. Readings are `real` where Go has float64. */
module MetricTypes {

  /** What a client's call returns: an error, a nil pointer without an error, or data. Nil is not
      tested for: reading it panics, and a panic in a goroutine ends the process. */
  datatype Answer<+T> = Failed | Nil | Got(value: T)

  /** A persistent volume as the volume finder reports it. */
  datatype VolumeInfo = VolumeInfo(
    namespace: string,
    persistentVolumeStatus: string,
    volumeClaimName: string,
    persistentVolume: string,
    storageClass: string,
    driver: string,
    provisionedSize: string,
    createdTime: string,
    volumeHandle: string,
    srp: string,
    storageGroup: string,
    symId: string,
    storageSystemVolumeName: string,
    protocol: string
  )

  datatype CapacityRecord = CapacityRecord(
    arrayId: string,
    volumeId: string,
    srpId: string,
    storageGroupId: string,
    storageClass: string,
    driver: string,
    persistentVolumeName: string,
    persistentVolumeStatus: string,
    persistentVolumeClaimName: string,
    namespace: string,
    total: real,
    used: real,
    usedPercent: real
  )

  /** Sent when no volume handle could be parsed, so that stale entries disappear downstream. */
  const EMPTY_CAPACITY_RECORD := CapacityRecord("", "", "", "", "", "", "", "", "", "", 0.0, 0.0, 0.0)

  datatype TopologyMeta = TopologyMeta(
    namespace: string,
    persistentVolumeClaim: string,
    persistentVolumeStatus: string,
    volumeClaimName: string,
    persistentVolume: string,
    storageClass: string,
    driver: string,
    provisionedSize: string,
    storageSystemVolumeName: string,
    storagePoolName: string,
    storageSystem: string,
    protocol: string,
    createdTime: string
  )
}
