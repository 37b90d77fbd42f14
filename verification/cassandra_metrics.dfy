/**
 * The Cassandra integration's metric collection
 * (`integrations/cassandra/src/metrics.go`): the JMX bean patterns, with any
 * `,?attr=.*$` suffix removed, are queried in order and their results
 * merged; the version reported by `nodetool version` is added last; the
 * definition table is then populated into the sample. The JMX connection,
 * its queries and the `nodetool` command are inputs: their outcomes are
 * parameters.
 */
module CassandraMetrics {
  import opened Wrappers
  import opened Values
  import opened GoStrings
  import opened Sdk
  import opened Populator

  /** The metric definition table: JMX bean attribute or "version", and kind. */
  const MetricsDefinition: Table := map[
      "provider.viewWriteLatencyPerSecond" := Definition(Direct("org.apache.cassandra.metrics:type=ClientRequest,scope=ViewWrite,name=Latency,attr=OneMinuteRate"), Gauge),
      "provider.rangeSliceLatencyPerSecond" := Definition(Direct("org.apache.cassandra.metrics:type=ClientRequest,scope=RangeSlice,name=Latency,attr=OneMinuteRate"), Gauge),
      "provider.CASWriteLatencyPerSecond" := Definition(Direct("org.apache.cassandra.metrics:type=ClientRequest,scope=CASWrite,name=Latency,attr=OneMinuteRate"), Gauge),
      "provider.readLatencyPerSecond" := Definition(Direct("org.apache.cassandra.metrics:type=ClientRequest,scope=Read,name=Latency,attr=OneMinuteRate"), Gauge),
      "provider.CASReadLatencyPerSecond" := Definition(Direct("org.apache.cassandra.metrics:type=ClientRequest,scope=CASRead,name=Latency,attr=OneMinuteRate"), Gauge),
      "provider.writeLatencyPerSecond" := Definition(Direct("org.apache.cassandra.metrics:type=ClientRequest,scope=Write,name=Latency,attr=OneMinuteRate"), Gauge),
      "provider.writeLatency98thPercentile" := Definition(Direct("org.apache.cassandra.metrics:type=ClientRequest,scope=Write,name=Latency,attr=98thPercentile"), Gauge),
      "provider.writeLatency99thPercentile" := Definition(Direct("org.apache.cassandra.metrics:type=ClientRequest,scope=Write,name=Latency,attr=99thPercentile"), Gauge),
      "provider.writeLatency999thPercentile" := Definition(Direct("org.apache.cassandra.metrics:type=ClientRequest,scope=Write,name=Latency,attr=999thPercentile"), Gauge),
      "provider.writeLatency50thPercentile" := Definition(Direct("org.apache.cassandra.metrics:type=ClientRequest,scope=Write,name=Latency,attr=50thPercentile"), Gauge),
      "provider.writeLatency75thPercentile" := Definition(Direct("org.apache.cassandra.metrics:type=ClientRequest,scope=Write,name=Latency,attr=75thPercentile"), Gauge),
      "provider.writeLatency95thPercentile" := Definition(Direct("org.apache.cassandra.metrics:type=ClientRequest,scope=Write,name=Latency,attr=95thPercentile"), Gauge),
      "provider.readLatency98thPercentile" := Definition(Direct("org.apache.cassandra.metrics:type=ClientRequest,scope=Read,name=Latency,attr=98thPercentile"), Gauge),
      "provider.readLatency99thPercentile" := Definition(Direct("org.apache.cassandra.metrics:type=ClientRequest,scope=Read,name=Latency,attr=99thPercentile"), Gauge),
      "provider.readLatency999thPercentile" := Definition(Direct("org.apache.cassandra.metrics:type=ClientRequest,scope=Read,name=Latency,attr=999thPercentile"), Gauge),
      "provider.readLatency50thPercentile" := Definition(Direct("org.apache.cassandra.metrics:type=ClientRequest,scope=Read,name=Latency,attr=50thPercentile"), Gauge),
      "provider.readLatency75thPercentile" := Definition(Direct("org.apache.cassandra.metrics:type=ClientRequest,scope=Read,name=Latency,attr=75thPercentile"), Gauge),
      "provider.readLatency95thPercentile" := Definition(Direct("org.apache.cassandra.metrics:type=ClientRequest,scope=Read,name=Latency,attr=95thPercentile"), Gauge),
      "provider.requestCounterMutationStageActiveTasks" := Definition(Direct("org.apache.cassandra.metrics:type=ThreadPools,path=request,scope=CounterMutationStage,name=ActiveTasks,attr=Value"), Gauge),
      "provider.requestCounterMutationStagePendingTasks" := Definition(Direct("org.apache.cassandra.metrics:type=ThreadPools,path=request,scope=CounterMutationStage,name=PendingTasks,attr=Value"), Gauge),
      "provider.requestMutationStageActiveTasks" := Definition(Direct("org.apache.cassandra.metrics:type=ThreadPools,path=request,scope=MutationStage,name=ActiveTasks,attr=Value"), Gauge),
      "provider.requestMutationStagePendingTasks" := Definition(Direct("org.apache.cassandra.metrics:type=ThreadPools,path=request,scope=MutationStage,name=PendingTasks,attr=Value"), Gauge),
      "provider.requestReadRepairStageActiveTasks" := Definition(Direct("org.apache.cassandra.metrics:type=ThreadPools,path=request,scope=ReadRepairStage,name=ActiveTasks,attr=Value"), Gauge),
      "provider.requestReadRepairStagePendingTasks" := Definition(Direct("org.apache.cassandra.metrics:type=ThreadPools,path=request,scope=ReadRepairStage,name=PendingTasks,attr=Value"), Gauge),
      "provider.requestReadStageActiveTasks" := Definition(Direct("org.apache.cassandra.metrics:type=ThreadPools,path=request,scope=ReadStage,name=ActiveTasks,attr=Value"), Gauge),
      "provider.requestReadStagePendingTasks" := Definition(Direct("org.apache.cassandra.metrics:type=ThreadPools,path=request,scope=ReadStage,name=PendingTasks,attr=Value"), Gauge),
      "provider.requestRequestResponseStageActiveTasks" := Definition(Direct("org.apache.cassandra.metrics:type=ThreadPools,path=request,scope=RequestResponseStage,name=ActiveTasks,attr=Value"), Gauge),
      "provider.requestRequestResponseStagePendingTasks" := Definition(Direct("org.apache.cassandra.metrics:type=ThreadPools,path=request,scope=RequestResponseStage,name=PendingTasks,attr=Value"), Gauge),
      "provider.requestViewMutationStageActiveTasks" := Definition(Direct("org.apache.cassandra.metrics:type=ThreadPools,path=request,scope=ViewMutationStage,name=ActiveTasks,attr=Value"), Gauge),
      "provider.requestViewMutationStagePendingTasks" := Definition(Direct("org.apache.cassandra.metrics:type=ThreadPools,path=request,scope=ViewMutationStage,name=PendingTasks,attr=Value"), Gauge),
      "provider.internalAntiEntropyStageActiveTasks" := Definition(Direct("org.apache.cassandra.metrics:type=ThreadPools,path=internal,scope=AntiEntropyStage,name=ActiveTasks,attr=Value"), Gauge),
      "provider.internalAntiEntropyStagePendingTasks" := Definition(Direct("org.apache.cassandra.metrics:type=ThreadPools,path=internal,scope=AntiEntropyStage,name=PendingTasks,attr=Value"), Gauge),
      "provider.internalCacheCleanupExecutorActiveTasks" := Definition(Direct("org.apache.cassandra.metrics:type=ThreadPools,path=internal,scope=CacheCleanupExecutor,name=ActiveTasks,attr=Value"), Gauge),
      "provider.internalCacheCleanupExecutorPendingTasks" := Definition(Direct("org.apache.cassandra.metrics:type=ThreadPools,path=internal,scope=CacheCleanupExecutor,name=PendingTasks,attr=Value"), Gauge),
      "provider.internalCompactionExecutorActiveTasks" := Definition(Direct("org.apache.cassandra.metrics:type=ThreadPools,path=internal,scope=CompactionExecutor,name=ActiveTasks,attr=Value"), Gauge),
      "provider.internalCompactionExecutorPendingTasks" := Definition(Direct("org.apache.cassandra.metrics:type=ThreadPools,path=internal,scope=CompactionExecutor,name=PendingTasks,attr=Value"), Gauge),
      "provider.internalGossipStageActiveTasks" := Definition(Direct("org.apache.cassandra.metrics:type=ThreadPools,path=internal,scope=GossipStage,name=ActiveTasks,attr=Value"), Gauge),
      "provider.internalGossipStagePendingTasks" := Definition(Direct("org.apache.cassandra.metrics:type=ThreadPools,path=internal,scope=GossipStage,name=PendingTasks,attr=Value"), Gauge),
      "provider.internalHintsDispatcherActiveTasks" := Definition(Direct("org.apache.cassandra.metrics:type=ThreadPools,path=internal,scope=HintsDispatcher,name=ActiveTasks,attr=Value"), Gauge),
      "provider.internalHintsDispatcherPendingTasks" := Definition(Direct("org.apache.cassandra.metrics:type=ThreadPools,path=internal,scope=HintsDispatcher,name=PendingTasks,attr=Value"), Gauge),
      "provider.internalInternalResponseStageActiveTasks" := Definition(Direct("org.apache.cassandra.metrics:type=ThreadPools,path=internal,scope=InternalResponseStage,name=ActiveTasks,attr=Value"), Gauge),
      "provider.internalInternalResponseStagePendingTasks" := Definition(Direct("org.apache.cassandra.metrics:type=ThreadPools,path=internal,scope=InternalResponseStage,name=PendingTasks,attr=Value"), Gauge),
      "provider.internalMemtableFlushWriterActiveTasks" := Definition(Direct("org.apache.cassandra.metrics:type=ThreadPools,path=internal,scope=MemtableFlushWriter,name=ActiveTasks,attr=Value"), Gauge),
      "provider.internalMemtableFlushWriterPendingTasks" := Definition(Direct("org.apache.cassandra.metrics:type=ThreadPools,path=internal,scope=MemtableFlushWriter,name=PendingTasks,attr=Value"), Gauge),
      "provider.internalMemtablePostFlushActiveTasks" := Definition(Direct("org.apache.cassandra.metrics:type=ThreadPools,path=internal,scope=MemtablePostFlush,name=ActiveTasks,attr=Value"), Gauge),
      "provider.internalMemtablePostFlushPendingTasks" := Definition(Direct("org.apache.cassandra.metrics:type=ThreadPools,path=internal,scope=MemtablePostFlush,name=PendingTasks,attr=Value"), Gauge),
      "provider.internalMemtableReclaimMemoryActiveTasks" := Definition(Direct("org.apache.cassandra.metrics:type=ThreadPools,path=internal,scope=MemtableReclaimMemory,name=ActiveTasks,attr=Value"), Gauge),
      "provider.internalMemtableReclaimMemoryPendingTasks" := Definition(Direct("org.apache.cassandra.metrics:type=ThreadPools,path=internal,scope=MemtableReclaimMemory,name=PendingTasks,attr=Value"), Gauge),
      "provider.internalMigrationStageActiveTasks" := Definition(Direct("org.apache.cassandra.metrics:type=ThreadPools,path=internal,scope=MigrationStage,name=ActiveTasks,attr=Value"), Gauge),
      "provider.internalMigrationStagePendingTasks" := Definition(Direct("org.apache.cassandra.metrics:type=ThreadPools,path=internal,scope=MigrationStage,name=PendingTasks,attr=Value"), Gauge),
      "provider.internalMiscStageActiveTasks" := Definition(Direct("org.apache.cassandra.metrics:type=ThreadPools,path=internal,scope=MiscStage,name=ActiveTasks,attr=Value"), Gauge),
      "provider.internalMiscStagePendingTasks" := Definition(Direct("org.apache.cassandra.metrics:type=ThreadPools,path=internal,scope=MiscStage,name=PendingTasks,attr=Value"), Gauge),
      "provider.internalPendingRangeCalculatorActiveTasks" := Definition(Direct("org.apache.cassandra.metrics:type=ThreadPools,path=internal,scope=PendingRangeCalculator,name=ActiveTasks,attr=Value"), Gauge),
      "provider.internalPendingRangeCalculatorPendingTasks" := Definition(Direct("org.apache.cassandra.metrics:type=ThreadPools,path=internal,scope=PendingRangeCalculator,name=PendingTasks,attr=Value"), Gauge),
      "provider.internalSamplerActiveTasks" := Definition(Direct("org.apache.cassandra.metrics:type=ThreadPools,path=internal,scope=Sampler,name=ActiveTasks,attr=Value"), Gauge),
      "provider.internalSamplerPendingTasks" := Definition(Direct("org.apache.cassandra.metrics:type=ThreadPools,path=internal,scope=Sampler,name=PendingTasks,attr=Value"), Gauge),
      "provider.internalSecondaryIndexManagementActiveTasks" := Definition(Direct("org.apache.cassandra.metrics:type=ThreadPools,path=internal,scope=SecondaryIndexManagement,name=ActiveTasks,attr=Value"), Gauge),
      "provider.internalSecondaryIndexManagementPendingTasks" := Definition(Direct("org.apache.cassandra.metrics:type=ThreadPools,path=internal,scope=SecondaryIndexManagement,name=PendingTasks,attr=Value"), Gauge),
      "provider.internalValidationExecutorActiveTasks" := Definition(Direct("org.apache.cassandra.metrics:type=ThreadPools,path=internal,scope=ValidationExecutor,name=ActiveTasks,attr=Value"), Gauge),
      "provider.internalValidationExecutorPendingTasks" := Definition(Direct("org.apache.cassandra.metrics:type=ThreadPools,path=internal,scope=ValidationExecutor,name=PendingTasks,attr=Value"), Gauge),
      "provider.droppedBatchRemoveMessagesCount" := Definition(Direct("org.apache.cassandra.metrics:type=DroppedMessage,scope=BATCH_REMOVE,name=Dropped,attr=Count"), Gauge),
      "provider.droppedBatchStoreMessagesCount" := Definition(Direct("org.apache.cassandra.metrics:type=DroppedMessage,scope=BATCH_STORE,name=Dropped,attr=Count"), Gauge),
      "provider.droppedCounterMutationMessagesCount" := Definition(Direct("org.apache.cassandra.metrics:type=DroppedMessage,scope=COUNTER_MUTATION,name=Dropped,attr=Count"), Gauge),
      "provider.droppedHintMessagesCount" := Definition(Direct("org.apache.cassandra.metrics:type=DroppedMessage,scope=HINT,name=Dropped,attr=Count"), Gauge),
      "provider.droppedMutationMessagesCount" := Definition(Direct("org.apache.cassandra.metrics:type=DroppedMessage,scope=MUTATION,name=Dropped,attr=Count"), Gauge),
      "provider.droppedPagedRangeMessagesCount" := Definition(Direct("org.apache.cassandra.metrics:type=DroppedMessage,scope=PAGED_RANGE,name=Dropped,attr=Count"), Gauge),
      "provider.droppedRangeSliceMessagesCount" := Definition(Direct("org.apache.cassandra.metrics:type=DroppedMessage,scope=RANGE_SLICE,name=Dropped,attr=Count"), Gauge),
      "provider.droppedReadMessagesCount" := Definition(Direct("org.apache.cassandra.metrics:type=DroppedMessage,scope=READ,name=Dropped,attr=Count"), Gauge),
      "provider.droppedReadRepairMessagesCount" := Definition(Direct("org.apache.cassandra.metrics:type=DroppedMessage,scope=READ_REPAIR,name=Dropped,attr=Count"), Gauge),
      "provider.droppedRequestResponseMessagesCount" := Definition(Direct("org.apache.cassandra.metrics:type=DroppedMessage,scope=REQUEST_RESPONSE,name=Dropped,attr=Count"), Gauge),
      "provider.droppedTraceMessagesCount" := Definition(Direct("org.apache.cassandra.metrics:type=DroppedMessage,scope=_TRACE,name=Dropped,attr=Count"), Gauge),
      "provider.liveSSTableCount" := Definition(Direct("org.apache.cassandra.metrics:type=ColumnFamily,name=LiveSSTableCount,attr=Value"), Gauge),
      "provider.totalHints" := Definition(Direct("org.apache.cassandra.metrics:type=Storage,name=TotalHints,attr=Count"), Gauge),
      "provider.totalHintsInProgress" := Definition(Direct("org.apache.cassandra.metrics:type=Storage,name=TotalHintsInProgress,attr=Count"), Gauge),
      "provider.keyCacheCapacityInBytes" := Definition(Direct("org.apache.cassandra.metrics:type=Cache,scope=KeyCache,name=Capacity,attr=Value"), Gauge),
      "provider.keyCacheHitsPerSecond" := Definition(Direct("org.apache.cassandra.metrics:type=Cache,scope=KeyCache,name=Hits,attr=OneMinuteRate"), Gauge),
      "provider.keyCacheHitRatio" := Definition(Direct("org.apache.cassandra.metrics:type=Cache,scope=KeyCache,name=HitRate,attr=Value"), Gauge),
      "provider.keyCacheRequestsPerSecond" := Definition(Direct("org.apache.cassandra.metrics:type=Cache,scope=KeyCache,name=Requests,attr=OneMinuteRate"), Gauge),
      "provider.keyCacheSize" := Definition(Direct("org.apache.cassandra.metrics:type=Cache,scope=KeyCache,name=Size,attr=Value"), Gauge),
      "provider.rowCacheCapacityInBytes" := Definition(Direct("org.apache.cassandra.metrics:type=Cache,scope=RowCache,name=Capacity,attr=Value"), Gauge),
      "provider.rowCacheHits" := Definition(Direct("org.apache.cassandra.metrics:type=Cache,scope=RowCache,name=Hits,attr=OneMinuteRate"), Gauge),
      "provider.rowCacheHitRatio" := Definition(Direct("org.apache.cassandra.metrics:type=Cache,scope=RowCache,name=HitRate,attr=Value"), Gauge),
      "provider.rowCacheRequests" := Definition(Direct("org.apache.cassandra.metrics:type=Cache,scope=RowCache,name=Requests,attr=OneMinuteRate"), Gauge),
      "provider.rowCacheSize" := Definition(Direct("org.apache.cassandra.metrics:type=Cache,scope=RowCache,name=Size,attr=Value"), Gauge),
      "provider.readTimeoutsPerSecond" := Definition(Direct("org.apache.cassandra.metrics:type=ClientRequest,scope=Read,name=Timeouts,attr=OneMinuteRate"), Gauge),
      "provider.readUnavailablesPerSecond" := Definition(Direct("org.apache.cassandra.metrics:type=ClientRequest,scope=Read,name=Unavailables,attr=OneMinuteRate"), Gauge),
      "provider.writeTimeoutsPerSecond" := Definition(Direct("org.apache.cassandra.metrics:type=ClientRequest,scope=Write,name=Timeouts,attr=OneMinuteRate"), Counter),
      "provider.writeUnavailablesPerSecond" := Definition(Direct("org.apache.cassandra.metrics:type=ClientRequest,scope=Write,name=Unavailables,attr=OneMinuteRate"), Gauge),
      "provider.rangeSliceTimeoutsPerSecond" := Definition(Direct("org.apache.cassandra.metrics:type=ClientRequest,scope=RangeSlice,name=Timeouts,attr=OneMinuteRate"), Gauge),
      "provider.rangeSliceUnavalablesPerSecond" := Definition(Direct("org.apache.cassandra.metrics:type=ClientRequest,scope=RangeSlice,name=Unavailables,attr=OneMinuteRate"), Gauge),
      "provider.commitLogCompletedTasksPerSecond" := Definition(Direct("org.apache.cassandra.metrics:type=CommitLog,name=CompletedTasks,attr=Value"), Counter),
      "provider.commitLogPendindTasks" := Definition(Direct("org.apache.cassandra.metrics:type=CommitLog,name=PendingTasks,attr=Value"), Gauge),
      "provider.commitLogTotalSize" := Definition(Direct("org.apache.cassandra.metrics:type=CommitLog,name=TotalCommitLogSize,attr=Value"), Gauge),
      "software.version" := Definition(Direct("version"), Attribute)
    ]

  /**
   * The JMX bean patterns queried, in order, each written as its pieces
   * between '=' signs.
   */
  const JmxPatterns: seq<string> := [
    LatencyPattern,
    TimeoutsPattern,
    UnavailablesPattern,
    RequestActivePattern,
    RequestPendingPattern,
    InternalActivePattern,
    InternalPendingPattern,
    DroppedPattern,
    LiveSSTablePattern,
    HintsPattern,
    HintsInProgressPattern,
    CachePattern,
    CommitLogPattern
  ]

  const LatencyPattern := Join(["org.apache.cassandra.metrics:type", "ClientRequest,scope", "*,name", "Latency"], '=')
  const TimeoutsPattern := Join(["org.apache.cassandra.metrics:type", "ClientRequest,scope", "*,name", "Timeouts"], '=')
  const UnavailablesPattern := Join(["org.apache.cassandra.metrics:type", "ClientRequest,scope", "*,name", "Unavailables"], '=')
  const RequestActivePattern := Join(["org.apache.cassandra.metrics:type", "ThreadPools,path", "request,scope", "*,name", "ActiveTasks"], '=')
  const RequestPendingPattern := Join(["org.apache.cassandra.metrics:type", "ThreadPools,path", "request,scope", "*,name", "PendingTasks"], '=')
  const InternalActivePattern := Join(["org.apache.cassandra.metrics:type", "ThreadPools,path", "internal,scope", "*,name", "ActiveTasks"], '=')
  const InternalPendingPattern := Join(["org.apache.cassandra.metrics:type", "ThreadPools,path", "internal,scope", "*,name", "PendingTasks"], '=')
  const DroppedPattern := Join(["org.apache.cassandra.metrics:type", "DroppedMessage,scope", "*,name", "Dropped"], '=')
  const LiveSSTablePattern := Join(["org.apache.cassandra.metrics:type", "ColumnFamily,name", "LiveSSTableCount"], '=')
  const HintsPattern := Join(["org.apache.cassandra.metrics:type", "Storage,name", "TotalHints"], '=')
  const HintsInProgressPattern := Join(["org.apache.cassandra.metrics:type", "Storage,name", "TotalHintsInProgress"], '=')
  const CachePattern := Join(["org.apache.cassandra.metrics:type", "Cache,scope", "*,name", "*"], '=')
  const CommitLogPattern := Join(["org.apache.cassandra.metrics:type", "CommitLog,name", "*"], '=')

  // ---------------------------------------------------------------------
  // The attribute suffix: the regular expression `,?attr=.*$`
  // ---------------------------------------------------------------------

  /**
   * `,?attr=.*$` matches from index `i`: an optional comma, "attr=", then
   * the rest of the text, which (`.` not matching a newline, `$` the end
   * of the text) holds no newline.
   */
  predicate AttrMatchAt(s: string, i: int) {
    || (0 <= i < |s| && s[i] == ',' && OccursAt(s, "attr=", i + 1) && '\n' !in s[i + 6..])
    || (OccursAt(s, "attr=", i) && '\n' !in s[i + 5..])
  }

  /** The leftmost index from `i` on where the expression matches, or the length when it matches nowhere. */
  function AttrStart(s: string, i: nat): (n: nat)
    requires i <= |s|
    ensures i <= n <= |s|
    ensures forall j | i <= j < n :: !AttrMatchAt(s, j)
    ensures n < |s| ==> AttrMatchAt(s, n)
    decreases |s| - i
  {
    if i == |s| then |s| else if AttrMatchAt(s, i) then i else AttrStart(s, i + 1)
  }

  /**
   * `ReplaceAllString(query, "")`: the leftmost match runs to the end of
   * the text, so everything from it on is removed, and nothing when there
   * is no match.
   */
  function StripAttr(s: string): (r: string)
    ensures |r| <= |s| && r == s[..|r|]
    ensures forall j | 0 <= j < |r| :: !AttrMatchAt(s, j)
    ensures |r| < |s| ==> AttrMatchAt(s, |r|)
  {
    s[..AttrStart(s, 0)]
  }

  /** The text is unchanged exactly when the expression matches nowhere in it. */
  lemma StripAttrUnchanged(s: string)
    ensures StripAttr(s) == s <==> forall j :: !AttrMatchAt(s, j)
  {
    if StripAttr(s) == s {
      forall j ensures !AttrMatchAt(s, j) {
        if 0 <= j < |s| {
        } else {
          assert !OccursAt(s, "attr=", j);
        }
      }
    } else {
      assert AttrMatchAt(s, |StripAttr(s)|);
    }
  }

  /** Removing the suffix twice removes nothing more. */
  lemma StripAttrIdempotent(s: string)
    ensures StripAttr(StripAttr(s)) == StripAttr(s)
  {
    var r := StripAttr(s);
    if |r| < |s| {
      MatchHasNoNewline(s, |r|);
    }
    forall j
      ensures !AttrMatchAt(r, j)
    {
      if AttrMatchAt(r, j) {
        MatchInPrefix(s, r, j);
      }
    }
    StripAttrUnchanged(r);
  }

  /** Everything a match covers is free of newlines. */
  lemma MatchHasNoNewline(s: string, i: int)
    requires AttrMatchAt(s, i)
    ensures 0 <= i <= |s| && '\n' !in s[i..]
  {
    if 0 <= i < |s| && s[i] == ',' && OccursAt(s, "attr=", i + 1) && '\n' !in s[i + 6..] {
      assert s[i..] == [','] + s[i + 1..i + 6] + s[i + 6..];
    } else {
      assert s[i..] == s[i..i + 5] + s[i + 5..];
    }
  }

  /**
   * A match in a prefix of `s` whose remainder has no newline is a match
   * in `s` too.
   */
  lemma MatchInPrefix(s: string, r: string, j: int)
    requires |r| <= |s| && r == s[..|r|]
    requires '\n' !in s[|r|..]
    requires AttrMatchAt(r, j)
    ensures AttrMatchAt(s, j)
  {
    if 0 <= j < |r| && r[j] == ',' && OccursAt(r, "attr=", j + 1) && '\n' !in r[j + 6..] {
      assert s[j + 1..j + 6] == r[j + 1..j + 6];
      assert s[j + 6..] == r[j + 6..] + s[|r|..];
    } else {
      assert s[j..j + 5] == r[j..j + 5];
      assert s[j + 5..] == r[j + 5..] + s[|r|..];
    }
  }

  /** No occurrence of "attr=" at all. */
  ghost predicate AttrFree(s: string) {
    forall i :: !OccursAt(s, "attr=", i)
  }

  /** Without "attr=" the expression matches nowhere, so the text is unchanged. */
  lemma AttrFreeUnchanged(s: string)
    requires AttrFree(s)
    ensures StripAttr(s) == s
  {
    forall j
      ensures !AttrMatchAt(s, j)
    {
      assert !OccursAt(s, "attr=", j) && !OccursAt(s, "attr=", j + 1);
    }
    StripAttrUnchanged(s);
  }

  /** "attr=" ends in '=', so text without '=' is free of it. */
  lemma AttrFreeWithoutEquals(s: string)
    requires '=' !in s
    ensures AttrFree(s)
  {
    forall i
      ensures !OccursAt(s, "attr=", i)
    {
      OccurrenceChars(s, i);
    }
  }

  /** The characters an occurrence of "attr=" fixes. */
  lemma OccurrenceChars(s: string, i: int)
    ensures OccursAt(s, "attr=", i) ==>
      s[i] == 'a' && s[i + 1] == 't' && s[i + 2] == 't' && s[i + 3] == 'r' && s[i + 4] == '='
  {
    if OccursAt(s, "attr=", i) {
      var w := s[i..i + 5];
      assert w[0] == s[i] && w[1] == s[i + 1] && w[2] == s[i + 2] && w[3] == s[i + 3] && w[4] == s[i + 4];
    }
  }

  /** The text does not end in 'r', so not in "attr". */
  predicate NotAttrEnd(x: string) {
    x == [] || x[|x| - 1] != 'r'
  }

  /**
   * Joining a piece without '=' that does not end in "attr" to free text
   * with an '=' gives free text: the only new '=' is not preceded by "attr".
   */
  lemma AttrFreeJoin(x: string, y: string)
    requires '=' !in x && NotAttrEnd(x) && AttrFree(y)
    ensures AttrFree(x + "=" + y)
  {
    var s := x + "=" + y;
    forall i
      ensures !OccursAt(s, "attr=", i)
    {
      OccurrenceChars(s, i);
      OccursAfter(x, y, "attr=", i);
      var p := i + 4;
      if 0 <= i && p < |s| {
        if p < |x| {
          assert s[p] == x[p];
        } else if p == |x| {
          assert s[p - 1] == x[|x| - 1];
        } else if i <= |x| {
          assert s[|x|] == '=';
        }
      }
    }
  }

  /** An occurrence after the separator is an occurrence in the text after it. */
  lemma OccursAfter(x: string, y: string, sub: string, i: int)
    ensures OccursAt(x + "=" + y, sub, i) && i > |x| ==> OccursAt(y, sub, i - |x| - 1)
  {
    if OccursAt(x + "=" + y, sub, i) && i > |x| {
      assert (x + "=" + y)[i..i + |sub|] == y[i - |x| - 1..i - |x| - 1 + |sub|];
    }
  }

  /** Pieces joined with '=', none holding '=' or ending in "attr", are free of "attr=". */
  lemma {:induction false} AttrFreePieces(parts: seq<string>)
    requires |parts| >= 1
    requires forall x | x in parts :: Piece(x)
    ensures AttrFree(Join(parts, '='))
    decreases |parts|
  {
    assert parts[0] in parts;
    if |parts| == 1 {
      AttrFreeWithoutEquals(parts[0]);
    } else {
      assert forall x | x in parts[1..] :: x in parts;
      AttrFreePieces(parts[1..]);
      AttrFreeJoin(parts[0], Join(parts[1..], '='));
    }
  }

  /** Text that may stand between two '=' signs of a pattern. */
  predicate Piece(x: string) {
    '=' !in x && NotAttrEnd(x)
  }

  /**
   * Every query is its pattern: no piece of any pattern holds '=' or ends
   * in 'r', so none has an attribute suffix to remove.
   */
  lemma QueriesArePatterns()
    ensures Queries(JmxPatterns) == JmxPatterns
  {
    LatencySent();
    TimeoutsSent();
    UnavailablesSent();
    RequestActiveSent();
    RequestPendingSent();
    InternalActiveSent();
    InternalPendingSent();
    DroppedSent();
    LiveSSTableSent();
    HintsSent();
    HintsInProgressSent();
    CacheSent();
    CommitLogSent();
    SentAsWritten(LatencyPattern, TimeoutsPattern, UnavailablesPattern, RequestActivePattern, RequestPendingPattern, InternalActivePattern, InternalPendingPattern, DroppedPattern, LiveSSTablePattern, HintsPattern, HintsInProgressPattern, CachePattern, CommitLogPattern);
  }

  /** Thirteen patterns that are each unchanged by `StripAttr` are their own queries. */
  lemma SentAsWritten(p0: string, p1: string, p2: string, p3: string, p4: string, p5: string, p6: string, p7: string, p8: string, p9: string, p10: string, p11: string, p12: string)
    requires StripAttr(p0) == p0 && StripAttr(p1) == p1 && StripAttr(p2) == p2 && StripAttr(p3) == p3
      && StripAttr(p4) == p4 && StripAttr(p5) == p5 && StripAttr(p6) == p6 && StripAttr(p7) == p7
      && StripAttr(p8) == p8 && StripAttr(p9) == p9 && StripAttr(p10) == p10 && StripAttr(p11) == p11
      && StripAttr(p12) == p12
    ensures Queries([p0, p1, p2, p3, p4, p5, p6, p7, p8, p9, p10, p11, p12]) == [p0, p1, p2, p3, p4, p5, p6, p7, p8, p9, p10, p11, p12]
  {
  }

  /** A pattern made of pieces is sent unchanged. */
  lemma PiecesUnchanged(parts: seq<string>)
    requires |parts| >= 1
    requires forall i | 0 <= i < |parts| :: Piece(parts[i])
    ensures StripAttr(Join(parts, '=')) == Join(parts, '=')
  {
    assert forall x | x in parts :: Piece(x);
    AttrFreePieces(parts);
    AttrFreeUnchanged(Join(parts, '='));
  }

  lemma LatencySent()
    ensures StripAttr(LatencyPattern) == LatencyPattern
  {
    assert Piece("org.apache.cassandra.metrics:type") && Piece("ClientRequest,scope") && Piece("*,name") && Piece("Latency");
    PiecesUnchanged(["org.apache.cassandra.metrics:type", "ClientRequest,scope", "*,name", "Latency"]);
  }

  lemma TimeoutsSent()
    ensures StripAttr(TimeoutsPattern) == TimeoutsPattern
  {
    assert Piece("org.apache.cassandra.metrics:type") && Piece("ClientRequest,scope") && Piece("*,name") && Piece("Timeouts");
    PiecesUnchanged(["org.apache.cassandra.metrics:type", "ClientRequest,scope", "*,name", "Timeouts"]);
  }

  lemma UnavailablesSent()
    ensures StripAttr(UnavailablesPattern) == UnavailablesPattern
  {
    assert Piece("org.apache.cassandra.metrics:type") && Piece("ClientRequest,scope") && Piece("*,name") && Piece("Unavailables");
    PiecesUnchanged(["org.apache.cassandra.metrics:type", "ClientRequest,scope", "*,name", "Unavailables"]);
  }

  lemma RequestActiveSent()
    ensures StripAttr(RequestActivePattern) == RequestActivePattern
  {
    assert Piece("org.apache.cassandra.metrics:type") && Piece("ThreadPools,path") && Piece("request,scope") && Piece("*,name") && Piece("ActiveTasks");
    PiecesUnchanged(["org.apache.cassandra.metrics:type", "ThreadPools,path", "request,scope", "*,name", "ActiveTasks"]);
  }

  lemma RequestPendingSent()
    ensures StripAttr(RequestPendingPattern) == RequestPendingPattern
  {
    assert Piece("org.apache.cassandra.metrics:type") && Piece("ThreadPools,path") && Piece("request,scope") && Piece("*,name") && Piece("PendingTasks");
    PiecesUnchanged(["org.apache.cassandra.metrics:type", "ThreadPools,path", "request,scope", "*,name", "PendingTasks"]);
  }

  lemma InternalActiveSent()
    ensures StripAttr(InternalActivePattern) == InternalActivePattern
  {
    assert Piece("org.apache.cassandra.metrics:type") && Piece("ThreadPools,path") && Piece("internal,scope") && Piece("*,name") && Piece("ActiveTasks");
    PiecesUnchanged(["org.apache.cassandra.metrics:type", "ThreadPools,path", "internal,scope", "*,name", "ActiveTasks"]);
  }

  lemma InternalPendingSent()
    ensures StripAttr(InternalPendingPattern) == InternalPendingPattern
  {
    assert Piece("org.apache.cassandra.metrics:type") && Piece("ThreadPools,path") && Piece("internal,scope") && Piece("*,name") && Piece("PendingTasks");
    PiecesUnchanged(["org.apache.cassandra.metrics:type", "ThreadPools,path", "internal,scope", "*,name", "PendingTasks"]);
  }

  lemma DroppedSent()
    ensures StripAttr(DroppedPattern) == DroppedPattern
  {
    assert Piece("org.apache.cassandra.metrics:type") && Piece("DroppedMessage,scope") && Piece("*,name") && Piece("Dropped");
    PiecesUnchanged(["org.apache.cassandra.metrics:type", "DroppedMessage,scope", "*,name", "Dropped"]);
  }

  lemma LiveSSTableSent()
    ensures StripAttr(LiveSSTablePattern) == LiveSSTablePattern
  {
    assert Piece("org.apache.cassandra.metrics:type") && Piece("ColumnFamily,name") && Piece("LiveSSTableCount");
    PiecesUnchanged(["org.apache.cassandra.metrics:type", "ColumnFamily,name", "LiveSSTableCount"]);
  }

  lemma HintsSent()
    ensures StripAttr(HintsPattern) == HintsPattern
  {
    assert Piece("org.apache.cassandra.metrics:type") && Piece("Storage,name") && Piece("TotalHints");
    PiecesUnchanged(["org.apache.cassandra.metrics:type", "Storage,name", "TotalHints"]);
  }

  lemma HintsInProgressSent()
    ensures StripAttr(HintsInProgressPattern) == HintsInProgressPattern
  {
    assert Piece("org.apache.cassandra.metrics:type") && Piece("Storage,name") && Piece("TotalHintsInProgress");
    PiecesUnchanged(["org.apache.cassandra.metrics:type", "Storage,name", "TotalHintsInProgress"]);
  }

  lemma CacheSent()
    ensures StripAttr(CachePattern) == CachePattern
  {
    assert Piece("org.apache.cassandra.metrics:type") && Piece("Cache,scope") && Piece("*,name") && Piece("*");
    PiecesUnchanged(["org.apache.cassandra.metrics:type", "Cache,scope", "*,name", "*"]);
  }

  lemma CommitLogSent()
    ensures StripAttr(CommitLogPattern) == CommitLogPattern
  {
    assert Piece("org.apache.cassandra.metrics:type") && Piece("CommitLog,name") && Piece("*");
    PiecesUnchanged(["org.apache.cassandra.metrics:type", "CommitLog,name", "*"]);
  }

  // ---------------------------------------------------------------------
  // getMetrics and getVersion
  // ---------------------------------------------------------------------

  /** The outcome of one JMX query: the beans' attribute values, or the query's error. */
  type Query = string -> Result<Bag, string>

  /** The queries sent: each pattern with its attribute suffix removed. */
  function Queries(patterns: seq<string>): (queries: seq<string>)
    ensures |queries| == |patterns|
    ensures forall i | 0 <= i < |patterns| :: queries[i] == StripAttr(patterns[i])
  {
    seq(|patterns|, i requires 0 <= i < |patterns| => StripAttr(patterns[i]))
  }

  /** The query `q` succeeds and returns a value under `k`. */
  predicate Returned(query: Query, q: string, k: string) {
    query(q).Ok? && k in query(q).value
  }

  /** Every query succeeds. */
  predicate AllOk(queries: seq<string>, query: Query) {
    forall i | 0 <= i < |queries| :: query(queries[i]).Ok?
  }

  /**
   * The query loop from `metrics` on: each query's values copied over what
   * is there, in order; the first failing query's error aborts.
   */
  function Merged(metrics: Bag, queries: seq<string>, query: Query): Result<Bag, string>
    decreases |queries|
  {
    if queries == [] then Ok(metrics)
    else
      match query(queries[0])
      case Err(e) => Err(e)
      case Ok(q) => Merged(metrics + q, queries[1..], query)
  }

  const VersionError := "Cant fetch Cassandra version"

  /**
   * `getVersion` given the outcome of running `nodetool version`: a failed
   * command, or output that does not split on ':' into exactly two parts,
   * is an error; otherwise the second part without surrounding space.
   */
  function Version(output: Result<string, string>): (r: Result<string, string>)
    ensures r.Err? ==> r.error == VersionError
    ensures r.Ok? <==> output.Ok? && multiset(output.value)[':'] == 1
  {
    if output.Err? then Err(VersionError)
    else
      var parts := Split(output.value, ':');
      if |parts| != 2 then Err(VersionError) else Ok(TrimSpace(parts[1]))
  }

  /** A line "head: version" with one ':' reports the version without surrounding space. */
  lemma VersionOfLine(head: string, version: string)
    requires ':' !in head && ':' !in version
    ensures Version(Ok(head + ":" + version)) == Ok(TrimSpace(version))
  {
    var parts := [head, version];
    assert Join(parts, ':') == head + ":" + version;
    SplitJoin(parts, ':');
  }

  /**
   * `getMetrics` given the JMX connection's open error, the patterns, the
   * query outcomes and the `nodetool` outcome: the merged results of the
   * patterns' queries with "version" set last, or the first error.
   */
  function Collected(openError: Option<string>, patterns: seq<string>, query: Query, versionOutput: Result<string, string>): Result<Bag, string> {
    if openError.Some? then Err(openError.value)
    else
      match Merged(map[], Queries(patterns), query)
      case Err(e) => Err(e)
      case Ok(m) =>
        match Version(versionOutput)
        case Err(e) => Err(e)
        case Ok(v) => Ok(m["version" := Str(v)])
  }

  /** `getMetrics`: open, the query loop, then the version. */
  method GetMetrics(openError: Option<string>, query: Query, versionOutput: Result<string, string>) returns (r: Result<Bag, string>)
    ensures r == Collected(openError, JmxPatterns, query, versionOutput)
  {
    if openError.Some? {
      return Err(openError.value);
    }
    var queries := Queries(JmxPatterns);
    var metrics: Bag := map[];
    for i := 0 to |queries|
      invariant Merged(metrics, queries[i..], query) == Merged(map[], queries, query)
    {
      assert queries[i..][1..] == queries[i + 1..];
      var q := query(queries[i]);
      if q.Err? {
        return Err(q.error);
      }
      metrics := MergeInto(metrics, q.value);
    }
    var version := Version(versionOutput);
    if version.Err? {
      return Err(version.error);
    }
    metrics := metrics["version" := Str(version.value)];
    return Ok(metrics);
  }

  /** The copy loop `metrics[k] = v` over one query's values, in map order. */
  method MergeInto(metrics: Bag, q: Bag) returns (m: Bag)
    ensures m == metrics + q
  {
    m := metrics;
    var remaining := q.Keys;
    while remaining != {}
      invariant remaining <= q.Keys
      invariant forall k :: k in m <==> k in metrics || (k in q && k !in remaining)
      invariant forall k | k in m :: m[k] == if k in q && k !in remaining then q[k] else metrics[k]
      decreases remaining
    {
      var k :| k in remaining;
      m := m[k := q[k]];
      remaining := remaining - {k};
    }
  }

  /** The loop succeeds exactly when every query does. */
  lemma {:induction false} MergedOk(metrics: Bag, queries: seq<string>, query: Query)
    ensures Merged(metrics, queries, query).Ok? <==> AllOk(queries, query)
    decreases |queries|
  {
    if queries != [] && query(queries[0]).Ok? {
      MergedOk(metrics + query(queries[0]).value, queries[1..], query);
      if AllOk(queries[1..], query) {
        forall i | 0 <= i < |queries| ensures query(queries[i]).Ok? {
          if i > 0 {
            assert queries[i] == queries[1..][i - 1];
          }
        }
      }
    }
  }

  /** A failing loop reports the error of the first query that fails. */
  lemma {:induction false} MergedFirstError(metrics: Bag, queries: seq<string>, query: Query)
    requires Merged(metrics, queries, query).Err?
    ensures exists i | 0 <= i < |queries| ::
      && query(queries[i]).Err?
      && query(queries[i]).error == Merged(metrics, queries, query).error
      && forall j | 0 <= j < i :: query(queries[j]).Ok?
    decreases |queries|
  {
    if query(queries[0]).Err? {
      assert query(queries[0]).Err?;
    } else {
      var rest := queries[1..];
      MergedFirstError(metrics + query(queries[0]).value, rest, query);
      var i :| 0 <= i < |rest| && query(rest[i]).Err? && query(rest[i]).error == Merged(metrics, queries, query).error
        && forall j | 0 <= j < i :: query(rest[j]).Ok?;
      assert queries[i + 1] == rest[i];
      forall j | 0 <= j < i + 1 ensures query(queries[j]).Ok? {
        if j > 0 {
          assert queries[j] == rest[j - 1];
        }
      }
    }
  }

  /** When every query succeeds, a key is present exactly when it was before or some query returned it. */
  lemma {:induction false} MergedKeys(metrics: Bag, queries: seq<string>, query: Query, k: string)
    requires AllOk(queries, query)
    ensures Merged(metrics, queries, query).Ok?
    ensures k in Merged(metrics, queries, query).value <==>
      k in metrics || exists i | 0 <= i < |queries| :: k in query(queries[i]).value
    decreases |queries|
  {
    if queries != [] {
      var rest := queries[1..];
      assert AllOk(rest, query) by {
        forall i | 0 <= i < |rest| ensures query(rest[i]).Ok? {
          assert rest[i] == queries[i + 1];
        }
      }
      MergedKeys(metrics + query(queries[0]).value, rest, query, k);
      if exists i | 0 <= i < |rest| :: k in query(rest[i]).value {
        var i :| 0 <= i < |rest| && k in query(rest[i]).value;
        assert rest[i] == queries[i + 1];
      }
      if exists i | 0 <= i < |queries| :: k in query(queries[i]).value {
        var i :| 0 <= i < |queries| && k in query(queries[i]).value;
        if i > 0 {
          assert queries[i] == rest[i - 1];
        }
      }
    }
  }

  /** A key takes its value from the last query that returned it. */
  lemma {:induction false} MergedLastWins(metrics: Bag, queries: seq<string>, query: Query, k: string, i: int)
    requires AllOk(queries, query)
    requires 0 <= i < |queries| && k in query(queries[i]).value
    requires forall j | i < j < |queries| :: k !in query(queries[j]).value
    ensures Merged(metrics, queries, query).Ok?
    ensures k in Merged(metrics, queries, query).value
    ensures Merged(metrics, queries, query).value[k] == query(queries[i]).value[k]
    decreases |queries|
  {
    var rest := queries[1..];
    var next := metrics + query(queries[0]).value;
    assert AllOk(rest, query) by {
      forall j | 0 <= j < |rest| ensures query(rest[j]).Ok? {
        assert rest[j] == queries[j + 1];
      }
    }
    if i == 0 {
      forall j | 0 <= j < |rest| ensures k !in query(rest[j]).value {
        assert rest[j] == queries[j + 1];
      }
      MergedUntouched(next, rest, query, k);
    } else {
      forall j | i - 1 < j < |rest| ensures k !in query(rest[j]).value {
        assert rest[j] == queries[j + 1];
      }
      assert rest[i - 1] == queries[i];
      MergedLastWins(next, rest, query, k, i - 1);
    }
  }

  /** A key no query returned keeps what it had, present or absent. */
  lemma {:induction false} MergedUntouched(metrics: Bag, queries: seq<string>, query: Query, k: string)
    requires AllOk(queries, query)
    requires forall j | 0 <= j < |queries| :: k !in query(queries[j]).value
    ensures Merged(metrics, queries, query).Ok?
    ensures k in Merged(metrics, queries, query).value <==> k in metrics
    ensures k in metrics ==> Merged(metrics, queries, query).value[k] == metrics[k]
    decreases |queries|
  {
    if queries != [] {
      var rest := queries[1..];
      forall j | 0 <= j < |rest| ensures query(rest[j]).Ok? && k !in query(rest[j]).value {
        assert rest[j] == queries[j + 1];
      }
      MergedUntouched(metrics + query(queries[0]).value, rest, query, k);
    }
  }

  /** An open error is returned as it is, before any query. */
  lemma OpenErrorFirst(openError: Option<string>, patterns: seq<string>, query: Query, versionOutput: Result<string, string>)
    requires openError.Some?
    ensures Collected(openError, patterns, query, versionOutput) == Err(openError.value)
  {
  }

  /**
   * The collection succeeds exactly when the connection opens, every query
   * succeeds and the version is found; a failing query's error wins over
   * the version's.
   */
  lemma CollectedOk(openError: Option<string>, patterns: seq<string>, query: Query, versionOutput: Result<string, string>)
    ensures Collected(openError, patterns, query, versionOutput).Ok? <==>
      openError.None? && AllOk(Queries(patterns), query) && Version(versionOutput).Ok?
    ensures openError.None? && AllOk(Queries(patterns), query) && Version(versionOutput).Err? ==>
      Collected(openError, patterns, query, versionOutput) == Err(VersionError)
  {
    MergedOk(map[], Queries(patterns), query);
  }

  /** On success "version" holds the reported version, whatever a query returned under that name. */
  lemma CollectedVersion(openError: Option<string>, patterns: seq<string>, query: Query, versionOutput: Result<string, string>)
    requires Collected(openError, patterns, query, versionOutput).Ok?
    ensures Version(versionOutput).Ok?
    ensures var m := Collected(openError, patterns, query, versionOutput).value;
      "version" in m && m["version"] == Str(Version(versionOutput).value)
  {
  }

  /**
   * On success every key but "version" is present exactly when some query
   * returned it.
   */
  lemma CollectedKeys(openError: Option<string>, patterns: seq<string>, query: Query, versionOutput: Result<string, string>, k: string)
    requires Collected(openError, patterns, query, versionOutput).Ok?
    requires k != "version"
    ensures k in Collected(openError, patterns, query, versionOutput).value <==>
      exists i | 0 <= i < |patterns| :: Returned(query, Queries(patterns)[i], k)
  {
    MergedOk(map[], Queries(patterns), query);
    MergedKeys(map[], Queries(patterns), query, k);
  }

  /** On success every key but "version" holds the value of the last query that returned it. */
  lemma CollectedLastWins(openError: Option<string>, patterns: seq<string>, query: Query, versionOutput: Result<string, string>, k: string, i: int)
    requires Collected(openError, patterns, query, versionOutput).Ok?
    requires k != "version"
    requires 0 <= i < |patterns| && Returned(query, Queries(patterns)[i], k)
    requires forall j | i < j < |patterns| :: !Returned(query, Queries(patterns)[j], k)
    ensures k in Collected(openError, patterns, query, versionOutput).value
    ensures Collected(openError, patterns, query, versionOutput).value[k] == query(Queries(patterns)[i]).value[k]
  {
    MergedOk(map[], Queries(patterns), query);
    MergedLastWins(map[], Queries(patterns), query, k, i);
  }

  // ---------------------------------------------------------------------
  // populateMetrics
  // ---------------------------------------------------------------------

  /**
   * `populateMetrics`: the definition table through the populator, whose
   * type switch here accepts `func(map[string]interface{}) (float64, bool)`.
   * The integration passes `MetricsDefinition`.
   */
  method PopulateMetrics(sample: MetricSet, metrics: Bag, table: Table, write: Write)
    modifies sample
    ensures sample.metrics == Populated(old(sample.metrics), metrics, table, FloatFuncs, write)
  {
    Populate(sample, metrics, table, FloatFuncs, write);
  }
}
