/** The global counters of what is held in memory and on disk. */
module DiskCache {

  class DiskCacheStats {
    var activeDiskFiles: int
    var currentDiskUsageBytes: int
    var activeMemoryBuffers: int
    var currentMemoryUsageBytes: int
    var diskCacheHits: int
    var memoryCacheHits: int

    constructor ()
      ensures activeDiskFiles == currentDiskUsageBytes == activeMemoryBuffers == currentMemoryUsageBytes == 0
      ensures diskCacheHits == memoryCacheHits == 0
    {
      diskCacheHits, memoryCacheHits := 0, 0;
      activeDiskFiles, currentDiskUsageBytes, activeMemoryBuffers, currentMemoryUsageBytes := 0, 0, 0, 0;
    }

    method IncrementDiskFiles(size: nat)
      modifies this`activeDiskFiles, this`currentDiskUsageBytes
      ensures activeDiskFiles == old(activeDiskFiles) + 1
      ensures currentDiskUsageBytes == old(currentDiskUsageBytes) + size
    {
      activeDiskFiles := activeDiskFiles + 1;
      currentDiskUsageBytes := currentDiskUsageBytes + size;
    }

    /** Never leaves a counter negative. */
    method DecrementDiskFiles(size: nat)
      modifies this`activeDiskFiles, this`currentDiskUsageBytes
      ensures activeDiskFiles == if old(activeDiskFiles) < 1 then 0 else old(activeDiskFiles) - 1
      ensures currentDiskUsageBytes == if old(currentDiskUsageBytes) < size then 0
        else old(currentDiskUsageBytes) - size
    {
      activeDiskFiles := activeDiskFiles - 1;
      if activeDiskFiles < 0 {
        activeDiskFiles := 0;
      }
      currentDiskUsageBytes := currentDiskUsageBytes - size;
      if currentDiskUsageBytes < 0 {
        currentDiskUsageBytes := 0;
      }
    }

    method IncrementMemoryBuffers(size: nat)
      modifies this`activeMemoryBuffers, this`currentMemoryUsageBytes
      ensures activeMemoryBuffers == old(activeMemoryBuffers) + 1
      ensures currentMemoryUsageBytes == old(currentMemoryUsageBytes) + size
    {
      activeMemoryBuffers := activeMemoryBuffers + 1;
      currentMemoryUsageBytes := currentMemoryUsageBytes + size;
    }

    method DecrementMemoryBuffers(size: nat)
      modifies this`activeMemoryBuffers, this`currentMemoryUsageBytes
      ensures activeMemoryBuffers == old(activeMemoryBuffers) - 1
      ensures currentMemoryUsageBytes == old(currentMemoryUsageBytes) - size
    {
      activeMemoryBuffers := activeMemoryBuffers - 1;
      currentMemoryUsageBytes := currentMemoryUsageBytes - size;
    }

    method IncrementDiskCacheHits()
      modifies this`diskCacheHits
      ensures diskCacheHits == old(diskCacheHits) + 1
    { diskCacheHits := diskCacheHits + 1; }

    method IncrementMemoryCacheHits()
      modifies this`memoryCacheHits
      ensures memoryCacheHits == old(memoryCacheHits) + 1
    { memoryCacheHits := memoryCacheHits + 1; }
  }
}
