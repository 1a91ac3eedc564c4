/** Shared header names, log-field keys and the built-in access-log patterns. */
module Consts {
  const HeaderAMTraceID := "am-trace-id"
  const HeaderXCloudTraceContext := "x-cloud-trace-context"
  const HeaderCloudflareRay := "CF-Ray"
  const HeaderEnableDebugLogging := "Enable-Debug-Log"

  const KeyAMTraceID := "am_trace_id"
  const KeyCloudflareRay := "cloudflare_ray"
  const KeyEnableDebugLogging := "enable_debug_log"

  /** Names of the context keys (`consts.ContextKey` values). */
  const ContextKeyTraceID := "traceID"
  const ContextKeyCloudflareRay := "cloudflareRay"
  const ContextKeyEnableDebugLogging := "enableDebugLog"

  /** The Apache-style pattern the server logs with unless configured otherwise. */
  const DefaultAccessLogPattern :=
    "%{2006-01-02T15:04:05.999-0700}t \"%{CF-Ray}i\" \"${AM-Trace-ID}\" "
    + "%a %A %{Host}i \"%r\" %s - %T \"%{X-Real-IP}i\" \"%{X-Forwarded-For}i\" "
    + "%{Content-Length}i - %{Content-Length}o %b"

  /** The same information as one JSON object per line. */
  const JSONAccessLogPattern :=
    "{\"message\": \"AccessLogger %r %s [${AM-Trace-ID}]\","
    + "\"@timestamp\":\"%{2006-01-02T15:04:05.999-0700}t\","
    + "\"category\":\"http_access_log\","
    + "\"context_cloudflare_ray\":\"%{CF-Ray}i\","
    + "\"context_trace_id\":\"${AM-Trace-ID}\","
    + "\"remote_addr\":\"%a\","
    + "\"server_addr\":\"%A\","
    + "\"host\":\"%{Host}i\","
    + "\"request\":\"%r\","
    + "\"status\":\"%s\","
    + "\"first_byte_commit_time\":\"%F ms\","
    + "\"request_time\":%D,"
    + "\"http_x_real_ip\":\"%{X-Real-IP}i\","
    + "\"http_x_forwarded_for\":\"%{X-Forwarded-For}i\","
    + "\"content_length\":\"${Content-Length}\","
    + "\"body_bytes_sent\":\"%B bytes\"}"
}
