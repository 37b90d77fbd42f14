/**
 * The MySQL integration's definition tables and derived metrics
 * (`integrations/mysql/src/metrics.go`): four constant tables from output
 * metric name to raw source and kind, and four ratios computed from integer
 * status counters.
 */
module MysqlMetrics {
  import opened Values
  import opened Sdk
  import opened Populator

  /** `bag[key].(int)` succeeds. */
  predicate HasInt(bag: Bag, key: string) {
    key in bag && bag[key].Int?
  }

  /** `qCacheUtilization`: one minus the share of free query-cache blocks, when both counters are ints. */
  function QCacheUtilization(bag: Bag): (r: (Float, bool))
    ensures r.1 <==> HasInt(bag, "Qcache_free_blocks") && HasInt(bag, "Qcache_total_blocks")
    ensures !r.1 ==> r.0 == Finite(0.0)
    ensures r.1 && bag["Qcache_total_blocks"].i != 0 ==>
      r.0 == Finite(1.0 - bag["Qcache_free_blocks"].i as real / bag["Qcache_total_blocks"].i as real)
    ensures r.1 && bag["Qcache_total_blocks"].i == 0 ==> !r.0.Finite?
  {
    var (free, ok1) := IntAt(bag, "Qcache_free_blocks");
    var (total, ok2) := IntAt(bag, "Qcache_total_blocks");
    if ok1 && ok2 then (OneMinus(Quotient(FromInt(free).r, FromInt(total).r)), true) else (Finite(0.0), false)
  }

  /** `qCacheHitRatio`: query-cache hits per query, when both counters are ints. */
  function QCacheHitRatio(bag: Bag): (r: (Float, bool))
    ensures r.1 <==> HasInt(bag, "Qcache_hits") && HasInt(bag, "Queries")
    ensures !r.1 ==> r.0 == Finite(0.0)
    ensures r.1 && bag["Queries"].i != 0 ==> r.0 == Finite(bag["Qcache_hits"].i as real / bag["Queries"].i as real)
    ensures r.1 && bag["Queries"].i == 0 ==> !r.0.Finite?
  {
    var (hits, ok1) := IntAt(bag, "Qcache_hits");
    var (queries, ok2) := IntAt(bag, "Queries");
    if ok1 && ok2 then (Quotient(FromInt(hits).r, FromInt(queries).r), true) else (Finite(0.0), false)
  }

  /** `threadCacheMissRate`: threads created per connection, when both counters are ints. */
  function ThreadCacheMissRate(bag: Bag): (r: (Float, bool))
    ensures r.1 <==> HasInt(bag, "Threads_created") && HasInt(bag, "Connections")
    ensures !r.1 ==> r.0 == Finite(0.0)
    ensures r.1 && bag["Connections"].i != 0 ==> r.0 == Finite(bag["Threads_created"].i as real / bag["Connections"].i as real)
    ensures r.1 && bag["Connections"].i == 0 ==> !r.0.Finite?
  {
    var (created, ok1) := IntAt(bag, "Threads_created");
    var (connections, ok2) := IntAt(bag, "Connections");
    if ok1 && ok2 then (Quotient(FromInt(created).r, FromInt(connections).r), true) else (Finite(0.0), false)
  }

  /**
   * `keyCacheUtilization`: one minus the share of the key buffer held by
   * unused blocks, when all three values are ints.
   */
  function KeyCacheUtilization(bag: Bag): (r: (Float, bool))
    ensures r.1 <==> HasInt(bag, "Key_blocks_unused") && HasInt(bag, "key_cache_block_size") && HasInt(bag, "key_buffer_size")
    ensures !r.1 ==> r.0 == Finite(0.0)
    ensures r.1 && bag["key_buffer_size"].i != 0 ==>
      r.0 == Finite(1.0 - (bag["Key_blocks_unused"].i * bag["key_cache_block_size"].i) as real / bag["key_buffer_size"].i as real)
    ensures r.1 && bag["key_buffer_size"].i == 0 ==> !r.0.Finite?
  {
    var (unused, ok1) := IntAt(bag, "Key_blocks_unused");
    var (blockSize, ok2) := IntAt(bag, "key_cache_block_size");
    var (bufferSize, ok3) := IntAt(bag, "key_buffer_size");
    if ok1 && ok2 && ok3 then
      (OneMinus(Quotient(FromInt(unused).r * FromInt(blockSize).r, FromInt(bufferSize).r)), true)
    else (Finite(0.0), false)
  }

  /**
   * No ratio guards its denominator: with int operands each one reports a
   * value, and a zero denominator gives infinity or NaN rather than "not found".
   */
  lemma ZeroDenominatorsFound(bag: Bag)
    requires HasInt(bag, "Qcache_free_blocks") && bag["Qcache_free_blocks"].i == 0
    requires HasInt(bag, "Qcache_total_blocks") && bag["Qcache_total_blocks"].i == 0
    requires HasInt(bag, "Qcache_hits") && bag["Qcache_hits"].i > 0
    requires HasInt(bag, "Queries") && bag["Queries"].i == 0
    ensures QCacheUtilization(bag) == (NaN, true)
    ensures QCacheHitRatio(bag) == (PosInf, true)
  {
  }

  /** A free-block count within the total gives a utilization between 0 and 1. */
  lemma QCacheUtilizationBounds(bag: Bag)
    requires HasInt(bag, "Qcache_free_blocks") && HasInt(bag, "Qcache_total_blocks")
    requires 0 <= bag["Qcache_free_blocks"].i <= bag["Qcache_total_blocks"].i && bag["Qcache_total_blocks"].i > 0
    ensures QCacheUtilization(bag).1 && QCacheUtilization(bag).0.Finite?
    ensures 0.0 <= QCacheUtilization(bag).0.r <= 1.0
  {
    var free := bag["Qcache_free_blocks"].i as real;
    var total := bag["Qcache_total_blocks"].i as real;
    assert free / total <= 1.0 by {
      assert free / total * total == free;
    }
  }

  /** Hits no more than queries give a hit ratio between 0 and 1. */
  lemma QCacheHitRatioBounds(bag: Bag)
    requires HasInt(bag, "Qcache_hits") && HasInt(bag, "Queries")
    requires 0 <= bag["Qcache_hits"].i <= bag["Queries"].i && bag["Queries"].i > 0
    ensures QCacheHitRatio(bag).1 && QCacheHitRatio(bag).0.Finite?
    ensures 0.0 <= QCacheHitRatio(bag).0.r <= 1.0
  {
    var hits := bag["Qcache_hits"].i as real;
    var queries := bag["Queries"].i as real;
    assert hits / queries <= 1.0 by {
      assert hits / queries * queries == hits;
    }
  }

  /** `defaultMetrics`: always populated. */
  const DefaultMetrics: Table := map[
    "provider.abortedClientsPerSecond" := Definition(Direct("Aborted_clients"), Counter),
    "provider.abortedConnectsPerSecond" := Definition(Direct("Aborted_connects"), Counter),
    "provider.bytesReceivedPerSecond" := Definition(Direct("Bytes_received"), Counter),
    "provider.bytesSentPerSecond" := Definition(Direct("Bytes_sent"), Counter),
    "provider.comDeletePerSecond" := Definition(Direct("Com_delete"), Counter),
    "provider.comDeleteMultiPerSecond" := Definition(Direct("Com_delete_multi"), Counter),
    "provider.comInsertPerSecond" := Definition(Direct("Com_insert"), Counter),
    "provider.comInsertSelectPerSecond" := Definition(Direct("Com_insert_select"), Counter),
    "provider.comReplaceSelectPerSecond" := Definition(Direct("Com_replace_select"), Counter),
    "provider.comSelectPerSecond" := Definition(Direct("Com_select"), Counter),
    "provider.comUpdatePerSecond" := Definition(Direct("Com_update"), Counter),
    "provider.comUpdateMultiPerSecond" := Definition(Direct("Com_update_multi"), Counter),
    "provider.connectionErrorsMaxConnectionsPerSecond" := Definition(Direct("Connection_errors_max_connections"), Counter),
    "provider.connectionsPerSecond" := Definition(Direct("Connections"), Counter),
    "provider.handlerRollbackPerSecond" := Definition(Direct("Handler_rollback"), Counter),
    "provider.innodbBufferPoolPagesData" := Definition(Direct("Innodb_buffer_pool_pages_data"), Gauge),
    "provider.innodbBufferPoolPagesFree" := Definition(Direct("Innodb_buffer_pool_pages_free"), Gauge),
    "provider.innodbBufferPoolPagesTotal" := Definition(Direct("Innodb_buffer_pool_pages_total"), Gauge),
    "provider.innodbDataReadPerSecond" := Definition(Direct("Innodb_data_read"), Counter),
    "provider.innodbDataWrittenPerSecond" := Definition(Direct("Innodb_data_written"), Counter),
    "provider.innodbLogWaitsPerSecond" := Definition(Direct("Innodb_log_waits"), Counter),
    "provider.innodbRowLockCurrentWaits" := Definition(Direct("Innodb_row_lock_current_waits"), Gauge),
    "provider.innodbRowLockTimeAvg" := Definition(Direct("Innodb_row_lock_time_avg"), Gauge),
    "provider.innodbRowLockWaitsPerSecond" := Definition(Direct("Innodb_row_lock_waits"), Counter),
    "provider.maxConnections" := Definition(Direct("Max_used_connections"), Gauge),
    "provider.openFiles" := Definition(Direct("Open_files"), Gauge),
    "provider.openTables" := Definition(Direct("Open_tables"), Gauge),
    "provider.openedTablesPerSecond" := Definition(Direct("Opened_tables"), Counter),
    "provider.preparedStmtCountPerSecond" := Definition(Direct("Prepared_stmt_count"), Counter),
    "provider.qCacheFreeMemory" := Definition(Direct("Qcache_free_memory"), Gauge),
    "provider.qCacheNotCachedPerSecond" := Definition(Direct("Qcache_not_cached"), Counter),
    "provider.queriesPerSecond" := Definition(Direct("Queries"), Counter),
    "provider.questionsPerSecond" := Definition(Direct("Questions"), Counter),
    "provider.slowQueriesPerSecond" := Definition(Direct("Slow_queries"), Counter),
    "provider.tablesLocksWaitedPerSecond" := Definition(Direct("Table_locks_waited"), Counter),
    "provider.threadsConnected" := Definition(Direct("Threads_connected"), Gauge),
    "provider.threadsRunning" := Definition(Direct("Threads_running"), Gauge),
    "provider.qCacheUtilization" := Definition(FloatFunc(QCacheUtilization), Gauge),
    "provider.qCacheHitRatio" := Definition(FloatFunc(QCacheHitRatio), Gauge),
    "software.Edition" := Definition(Direct("version_comment"), Attribute),
    "software.Version" := Definition(Direct("version"), Attribute),
    "cluster.NodeType" := Definition(Direct("node_type"), Attribute)
  ]

  /** `extendedMetrics`: populated under the extended-metrics flag. */
  const ExtendedMetrics: Table := map[
    "provider.createdTmpDiskTablesPerSecond" := Definition(Direct("Created_tmp_disk_tables"), Counter),
    "provider.createdTmpFilesPerSecond" := Definition(Direct("Created_tmp_files"), Counter),
    "provider.createdTmpTablesPerSecond" := Definition(Direct("Created_tmp_tables"), Counter),
    "provider.handlerDeletePerSecond" := Definition(Direct("Handler_delete"), Counter),
    "provider.handlerReadFirstPerSecond" := Definition(Direct("Handler_read_first"), Counter),
    "provider.handlerReadKeyPerSecond" := Definition(Direct("Handler_read_key"), Counter),
    "provider.handlerReadRndPerSecond" := Definition(Direct("Handler_read_rnd"), Counter),
    "provider.handlerReadRndNextPerSecond" := Definition(Direct("Handler_read_rnd_next"), Counter),
    "provider.handlerUpdatePerSecond" := Definition(Direct("Handler_update"), Counter),
    "provider.handlerWritePerSecond" := Definition(Direct("Handler_write"), Counter),
    "provider.maxExecutuibTimeExceededPerSecond" := Definition(Direct("Max_execution_time_exceeded"), Counter),
    "provider.qCacheFreeBlocks" := Definition(Direct("Qcache_free_blocks"), Gauge),
    "provider.qCacheHitsPerSecond" := Definition(Direct("Qcache_hits"), Counter),
    "provider.qCacheInserts" := Definition(Direct("Qcache_inserts"), Gauge),
    "provider.qCacheLowmemPrunesPerSecond" := Definition(Direct("Qcache_lowmem_prunes"), Counter),
    "provider.qCacheQueriesInCachePerSecond" := Definition(Direct("Qcache_queries_in_cache"), Counter),
    "provider.qCacheTotalBlocks" := Definition(Direct("Qcache_total_blocks"), Gauge),
    "provider.selectFullJoinPerSecond" := Definition(Direct("Select_full_join"), Counter),
    "provider.selectFullJoinRangePerSecond" := Definition(Direct("Select_full_range_join"), Counter),
    "provider.selectRangePerSecond" := Definition(Direct("Select_range"), Counter),
    "provider.selectRangeCheckPerSecond" := Definition(Direct("Select_range_check"), Counter),
    "provider.sortMergePassesPerSecond" := Definition(Direct("Sort_merge_passes"), Counter),
    "provider.sortRangePerSecond" := Definition(Direct("Sort_range"), Counter),
    "provider.sortRowsPerSecond" := Definition(Direct("Sort_rows"), Counter),
    "provider.sortScanPerSecond" := Definition(Direct("Sort_scan"), Counter),
    "provider.tableOpenCacheHitsPerSecond" := Definition(Direct("Table_open_cache_hits"), Counter),
    "provider.tableOpenCacheMissesPerSecond" := Definition(Direct("Table_open_cache_misses"), Counter),
    "provider.tableOpenCacheOverflowsPerSecond" := Definition(Direct("Table_open_cache_overflows"), Counter),
    "provider.threadsCached" := Definition(Direct("Threads_cached"), Gauge),
    "provider.threadsCreatedPerSecond" := Definition(Direct("Threads_created"), Counter),
    "provider.threadCacheMissRate" := Definition(FloatFunc(ThreadCacheMissRate), Gauge)
  ]

  /** `innodbMetrics`: populated under the InnoDB flag. */
  const InnodbMetrics: Table := map[
    "provider.innodbBufferPoolPagesDirty" := Definition(Direct("Innodb_buffer_pool_pages_dirty"), Gauge),
    "provider.innodbBufferPoolPagesFlushedPerSecond" := Definition(Direct("Innodb_buffer_pool_pages_flushed"), Counter),
    "provider.innodbBufferPoolReadAheadPerSecond" := Definition(Direct("Innodb_buffer_pool_read_ahead"), Counter),
    "provider.innodbBufferPoolReadAheadEvictedPerSecond" := Definition(Direct("Innodb_buffer_pool_read_ahead_evicted"), Counter),
    "provider.innodbBufferPoolReadAheadRndPerSecond" := Definition(Direct("Innodb_buffer_pool_read_ahead_rnd"), Counter),
    "provider.innodbBufferPoolReadRequestsPerSecond" := Definition(Direct("Innodb_buffer_pool_read_requests"), Counter),
    "provider.innodbBufferPoolReads" := Definition(Direct("Innodb_buffer_pool_reads"), Gauge),
    "provider.innodbBufferPoolWaitFreePerSecond" := Definition(Direct("Innodb_buffer_pool_wait_free"), Counter),
    "provider.innodbBufferPoolWriteRequestsPerSecond" := Definition(Direct("Innodb_buffer_pool_write_requests"), Counter),
    "provider.innodbDataFsyncsPerSecond" := Definition(Direct("Innodb_data_fsyncs"), Counter),
    "provider.innodbDataPendingFsyncsPerSecond" := Definition(Direct("Innodb_data_pending_fsyncs"), Counter),
    "provider.innodbDataPendingReadsPerSecond" := Definition(Direct("Innodb_data_pending_reads"), Counter),
    "provider.innodbDataPendingWritesPerSecond" := Definition(Direct("Innodb_data_pending_writes"), Counter),
    "provider.innodbDataReadsPerSecond" := Definition(Direct("Innodb_data_reads"), Counter),
    "provider.innodbDataWritesPerSecond" := Definition(Direct("Innodb_data_writes"), Counter),
    "provider.innodbLogWriteRequestsPerSecond" := Definition(Direct("Innodb_log_write_requests"), Counter),
    "provider.innodbWritesPerSecond" := Definition(Direct("Innodb_log_writes"), Counter),
    "provider.innodbNumOpenFiles" := Definition(Direct("Innodb_num_open_files"), Gauge),
    "provider.innodbOsLogFsyncsPerSecond" := Definition(Direct("Innodb_os_log_fsyncs"), Counter),
    "provider.innodbOsLogPendingFsyncsPerSecond" := Definition(Direct("Innodb_os_log_pending_fsyncs"), Counter),
    "provider.innodbOsLogPendingWritesPerSecond" := Definition(Direct("Innodb_os_log_pending_writes"), Counter),
    "provider.innodbOsLogWrittenPerSecond" := Definition(Direct("Innodb_os_log_written"), Counter),
    "provider.innodbPagesCreatedPerSecond" := Definition(Direct("Innodb_pages_created"), Counter),
    "provider.innodbPagesReadPerSecond" := Definition(Direct("Innodb_pages_read"), Counter),
    "provider.innodbPagesWrittenPerSecond" := Definition(Direct("Innodb_pages_written"), Counter),
    "provider.innodbRowsDeletedPerSecond" := Definition(Direct("Innodb_rows_deleted"), Counter),
    "provider.innodbRowsInsertedPerSecond" := Definition(Direct("Innodb_rows_inserted"), Counter),
    "provider.innodbRowsReadPerSecond" := Definition(Direct("Innodb_rows_read"), Counter),
    "provider.innodbRowsUpdatedPerSecond" := Definition(Direct("Innodb_rows_updated"), Counter)
  ]

  /** `myisamMetrics`: populated under the MyISAM flag. */
  const MyisamMetrics: Table := map[
    "provider.keyBlocksNotFlushed" := Definition(Direct("Key_blocks_not_flushed"), Gauge),
    "provider.keyCacheUtilization" := Definition(FloatFunc(KeyCacheUtilization), Gauge),
    "provider.keyReadRequestsPerSecond" := Definition(Direct("Key_read_requests"), Counter),
    "provider.KeyReadsPerSecond" := Definition(Direct("Key_reads"), Counter),
    "provider.KeyWriteRequestsPerSecond" := Definition(Direct("Key_write_requests"), Counter),
    "provider.KeyWritesPerSecond" := Definition(Direct("Key_writes"), Counter)
  ]

  /** The output names of the default table's attributes. */
  const DefaultAttributeNames: set<string> := {"software.Edition", "software.Version", "cluster.NodeType"}

  /**
   * The default table's only attributes are the edition, the version and
   * the node type, read from the keys "version_comment", "version" and
   * "node_type".
   */
  lemma DefaultAttributes()
    ensures forall name | name in DefaultMetrics :: DefaultMetrics[name].kind == Attribute <==> name in DefaultAttributeNames
    ensures DefaultMetrics["software.Edition"].source == Direct("version_comment")
    ensures DefaultMetrics["software.Version"].source == Direct("version")
    ensures DefaultMetrics["cluster.NodeType"].source == Direct("node_type")
  {
    forall name | name in DefaultMetrics
      ensures DefaultMetrics[name].kind == Attribute <==> name in DefaultAttributeNames
    {
      if |name| == 16 {
        SixteenLetterNames(name);
      } else {
        OtherNames(name);
      }
    }
  }

  /**
   * The attributes always resolve once the raw bag holds the three keys
   * that `getRawData` injects.
   */
  lemma DefaultAttributesResolve(bag: Bag)
    requires "version_comment" in bag && "version" in bag && "node_type" in bag
    ensures forall name | name in DefaultMetrics && DefaultMetrics[name].kind == Attribute ::
      Resolve(bag, DefaultMetrics[name].source, FloatFuncs).Some?
  {
    DefaultAttributes();
  }

  /** The only default names of sixteen characters are the attribute names. */
  lemma SixteenLetterNames(name: string)
    requires name in DefaultMetrics && |name| == 16
    ensures name in DefaultAttributeNames
  {
  }

  /** Every other default name is a gauge or a counter. */
  lemma OtherNames(name: string)
    requires name in DefaultMetrics && |name| != 16
    ensures DefaultMetrics[name].kind != Attribute
  {
  }
}
